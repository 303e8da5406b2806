/** The in-memory clip history: newest first, one entry per id, pinned entries never evicted. */
module History {
  import opened ByteStrings
  import opened Wire

  datatype Origin = Local | Peer(device: DeviceId)

  datatype HistoryItem = HistoryItem(
    id: ContentId,
    kind: ContentKind,
    origin: Origin,
    size: nat,
    createdAt: nat,
    preview: string,
    pinned: bool)

  predicate UniqueIds(items: seq<HistoryItem>) {
    forall i, j | 0 <= i < j < |items| :: items[i].id != items[j].id
  }

  predicate HasId(items: seq<HistoryItem>, id: ContentId) {
    exists i :: 0 <= i < |items| && items[i].id == id
  }

  function WithoutId(items: seq<HistoryItem>, id: ContentId): seq<HistoryItem> {
    if items == [] then [] else (if items[0].id == id then [] else [items[0]]) + WithoutId(items[1..], id)
  }

  function PinnedOnly(items: seq<HistoryItem>): seq<HistoryItem> {
    if items == [] then [] else (if items[0].pinned then [items[0]] else []) + PinnedOnly(items[1..])
  }

  function UnpinnedOnly(items: seq<HistoryItem>): seq<HistoryItem> {
    if items == [] then [] else (if items[0].pinned then [] else [items[0]]) + UnpinnedOnly(items[1..])
  }

  /** Every pinned item and the first `quota` of the others, in order. */
  function KeepNewest(items: seq<HistoryItem>, quota: nat): seq<HistoryItem> {
    if items == [] then []
    else if items[0].pinned then [items[0]] + KeepNewest(items[1..], quota)
    else if quota > 0 then [items[0]] + KeepNewest(items[1..], quota - 1)
    else KeepNewest(items[1..], 0)
  }

  /** What the pinned items leave of the capacity. */
  function Quota(items: seq<HistoryItem>, cap: nat): nat {
    if |PinnedOnly(items)| >= cap then 0 else cap - |PinnedOnly(items)|
  }

  function AddItem(items: seq<HistoryItem>, cap: nat, item: HistoryItem): seq<HistoryItem> {
    var all := [item] + WithoutId(items, item.id);
    KeepNewest(all, Quota(all, cap))
  }

  function SetPin(items: seq<HistoryItem>, id: ContentId, pinned: bool): seq<HistoryItem> {
    if items == [] then []
    else if items[0].id == id then [items[0].(pinned := pinned)] + items[1..]
    else [items[0]] + SetPin(items[1..], id, pinned)
  }

  // ----- What KeepNewest keeps -----

  lemma {:induction false} CountsAddUp(items: seq<HistoryItem>)
    ensures |items| == |PinnedOnly(items)| + |UnpinnedOnly(items)|
  {
    if items != [] { CountsAddUp(items[1..]); }
  }

  /** The pinned items all stay; of the others exactly the newest `quota` stay. */
  lemma {:induction false} KeepNewestKeeps(items: seq<HistoryItem>, quota: nat)
    ensures PinnedOnly(KeepNewest(items, quota)) == PinnedOnly(items)
    ensures UnpinnedOnly(KeepNewest(items, quota)) ==
            UnpinnedOnly(items)[..if quota < |UnpinnedOnly(items)| then quota else |UnpinnedOnly(items)|]
  {
    if items != [] {
      var first, rest := items[0], items[1..];
      var q := if first.pinned || quota == 0 then quota else quota - 1;
      KeepNewestKeeps(rest, q);
      var kept := KeepNewest(rest, q);
      assert ([first] + kept)[1..] == kept;
    }
  }

  lemma {:induction false} KeepNewestAll(items: seq<HistoryItem>, quota: nat)
    requires |UnpinnedOnly(items)| <= quota
    ensures KeepNewest(items, quota) == items
  {
    if items != [] { KeepNewestAll(items[1..], if items[0].pinned then quota else quota - 1); }
  }

  lemma {:induction false} KeepNewestMembers(items: seq<HistoryItem>, quota: nat)
    ensures forall x | x in KeepNewest(items, quota) :: x in items
    ensures UniqueIds(items) ==> UniqueIds(KeepNewest(items, quota))
  {
    if items != [] {
      var first, rest := items[0], items[1..];
      var q := if first.pinned || quota == 0 then quota else quota - 1;
      KeepNewestMembers(rest, q);
      var kept := KeepNewest(rest, q);
      if UniqueIds(items) {
        assert forall i | 0 <= i < |rest| :: rest[i] == items[i + 1];
        ConsUnique(first, kept);
      }
    }
  }

  lemma ConsUnique(first: HistoryItem, rest: seq<HistoryItem>)
    requires UniqueIds(rest)
    ensures (forall x | x in rest :: x.id != first.id) ==> UniqueIds([first] + rest)
  {
    if forall x | x in rest :: x.id != first.id {
      var all := [first] + rest;
      forall i, j | 0 <= i < j < |all| ensures all[i].id != all[j].id {
        assert all[j] == rest[j - 1] && rest[j - 1] in rest;
        assert i > 0 ==> all[i] == rest[i - 1];
      }
    }
  }

  /** Dropping the oldest unpinned item does not matter while more than the quota are held. */
  lemma {:induction false} DropOldest(items: seq<HistoryItem>, pos: nat, quota: nat)
    requires pos < |items| && !items[pos].pinned
    requires forall i | pos < i < |items| :: items[i].pinned
    requires |UnpinnedOnly(items)| > quota
    ensures var less := items[..pos] + items[pos + 1..];
            && KeepNewest(less, quota) == KeepNewest(items, quota)
            && PinnedOnly(less) == PinnedOnly(items)
            && |UnpinnedOnly(less)| == |UnpinnedOnly(items)| - 1
  {
    var first, rest := items[0], items[1..];
    var less := items[..pos] + items[pos + 1..];
    if pos == 0 {
      assert less == rest;
      NoneUnpinned(rest);
    } else {
      var lessRest := rest[..pos - 1] + rest[pos..];
      SomeUnpinned(rest, pos - 1);
      DropOldest(rest, pos - 1, if first.pinned || quota == 0 then quota else quota - 1);
      assert less == [first] + lessRest;
      ConsCounts(first, lessRest, quota);
    }
  }

  lemma ConsCounts(first: HistoryItem, rest: seq<HistoryItem>, quota: nat)
    ensures var q := if first.pinned || quota == 0 then quota else quota - 1;
            KeepNewest([first] + rest, quota) ==
            (if first.pinned || quota > 0 then [first] else []) + KeepNewest(rest, q)
    ensures PinnedOnly([first] + rest) == (if first.pinned then [first] else []) + PinnedOnly(rest)
    ensures UnpinnedOnly([first] + rest) == (if first.pinned then [] else [first]) + UnpinnedOnly(rest)
  {
    assert ([first] + rest)[1..] == rest;
  }

  lemma {:induction false} NoneUnpinned(items: seq<HistoryItem>)
    requires forall i | 0 <= i < |items| :: items[i].pinned
    ensures UnpinnedOnly(items) == []
  {
    if items != [] { NoneUnpinned(items[1..]); }
  }

  lemma {:induction false} SomeUnpinned(items: seq<HistoryItem>, pos: nat)
    requires pos < |items| && !items[pos].pinned
    ensures UnpinnedOnly(items) != []
  {
    if pos > 0 { SomeUnpinned(items[1..], pos - 1); }
  }

  lemma {:induction false} WithoutIdMembers(items: seq<HistoryItem>, id: ContentId)
    ensures forall x :: x in WithoutId(items, id) <==> x in items && x.id != id
    ensures UniqueIds(items) ==> UniqueIds(WithoutId(items, id))
  {
    if items != [] {
      var rest := items[1..];
      WithoutIdMembers(rest, id);
      if UniqueIds(items) {
        assert forall i | 0 <= i < |rest| :: rest[i] == items[i + 1];
        ConsUnique(items[0], WithoutId(rest, id));
      }
    }
  }

  lemma {:induction false} CutIsWithoutId(items: seq<HistoryItem>, pos: nat)
    requires pos < |items| && UniqueIds(items)
    ensures WithoutId(items, items[pos].id) == items[..pos] + items[pos + 1..]
  {
    var rest := items[1..];
    assert forall i | 0 <= i < |rest| :: rest[i] == items[i + 1];
    if pos == 0 {
      AbsentId(rest, items[0].id);
    } else {
      CutIsWithoutId(rest, pos - 1);
      assert items[..pos] == [items[0]] + rest[..pos - 1] && items[pos + 1..] == rest[pos..];
      assert WithoutId(items, items[pos].id) == [items[0]] + WithoutId(rest, rest[pos - 1].id);
      hide WithoutId, UniqueIds;
    }
  }

  lemma {:induction false} AbsentId(items: seq<HistoryItem>, id: ContentId)
    requires !HasId(items, id)
    ensures WithoutId(items, id) == items
  {
    if items != [] {
      assert items[0].id != id;
      assert forall i | 0 <= i < |items| - 1 :: items[1..][i] == items[i + 1];
      AbsentId(items[1..], id);
    }
  }

  // ----- The buffer object -----

  class HistoryBuffer {
    var items: seq<HistoryItem>
    const cap: nat

    ghost predicate Valid()
      reads this
    {
      cap >= 1 && UniqueIds(items)
    }

    constructor (cap: nat)
      ensures Valid() && items == [] && this.cap == if cap >= 1 then cap else 1
    {
      this.cap := if cap >= 1 then cap else 1;
      items := [];
    }

    /** The index of `id`, or the length. */
    method Find(id: ContentId) returns (i: nat)
      ensures i <= |items|
      ensures i < |items| ==> items[i].id == id
      ensures i == |items| <==> !HasId(items, id)
      ensures forall k | 0 <= k < i :: items[k].id != id
    {
      i := 0;
      while i < |items| && items[i].id != id
        invariant i <= |items|
        invariant forall k | 0 <= k < i :: items[k].id != id
      {
        i := i + 1;
      }
    }

    method Add(item: HistoryItem)
      requires Valid()
      modifies this`items
      ensures Valid() && items == AddItem(old(items), cap, item)
    {
      var i := Find(item.id);
      if i < |items| {
        CutIsWithoutId(items, i);
        items := items[..i] + items[i + 1..];
      } else {
        AbsentId(items, item.id);
      }
      assert items == WithoutId(old(items), item.id);
      WithoutIdMembers(old(items), item.id);
      ConsUnique(item, items);
      items := [item] + items;
      KeepNewestMembers(items, Quota(items, cap));
      Evict();
    }

    /** Drops the oldest unpinned item while over capacity; stops when all are pinned. */
    method Evict()
      modifies this`items
      ensures items == KeepNewest(old(items), Quota(old(items), cap))
    {
      ghost var quota := Quota(items, cap);
      while |items| > cap
        invariant KeepNewest(items, quota) == KeepNewest(old(items), quota)
        invariant PinnedOnly(items) == PinnedOnly(old(items))
        decreases |items|
      {
        CountsAddUp(items);
        var pos := OldestUnpinned();
        if pos == |items| {
          NoneUnpinned(items);
          break;
        }
        SomeUnpinned(items, pos);
        DropOldest(items, pos, quota);
        items := items[..pos] + items[pos + 1..];
      }
      CountsAddUp(items);
      KeepNewestAll(items, quota);
    }

    /** The last unpinned index, or the length. */
    method OldestUnpinned() returns (pos: nat)
      ensures pos <= |items|
      ensures pos < |items| ==> !items[pos].pinned && forall k | pos < k < |items| :: items[k].pinned
      ensures pos == |items| ==> forall k | 0 <= k < |items| :: items[k].pinned
    {
      var i := |items|;
      while i > 0
        invariant 0 <= i <= |items|
        invariant forall k | i <= k < |items| :: items[k].pinned
      {
        i := i - 1;
        if !items[i].pinned { return i; }
      }
      pos := |items|;
    }

    method SetPinned(id: ContentId, pinned: bool) returns (found: bool)
      requires Valid()
      modifies this`items
      ensures Valid() && items == SetPin(old(items), id, pinned) && found == HasId(old(items), id)
    {
      var i := Find(id);
      found := i < |items|;
      SetPinAt(items, id, pinned, i);
      SetPinUnique(items, id, pinned);
      if found { items := items[i := items[i].(pinned := pinned)]; }
    }

    method Delete(id: ContentId) returns (found: bool)
      requires Valid()
      modifies this`items
      ensures Valid() && items == WithoutId(old(items), id) && found == HasId(old(items), id)
    {
      var i := Find(id);
      found := i < |items|;
      WithoutIdMembers(items, id);
      if found {
        CutIsWithoutId(items, i);
        items := items[..i] + items[i + 1..];
      } else {
        AbsentId(items, id);
      }
    }
  }

  lemma {:induction false} SetPinAt(items: seq<HistoryItem>, id: ContentId, pinned: bool, i: nat)
    requires i <= |items| && forall k | 0 <= k < i :: items[k].id != id
    requires i < |items| ==> items[i].id == id
    ensures SetPin(items, id, pinned) == if i < |items| then items[i := items[i].(pinned := pinned)] else items
  {
    if 0 < i { SetPinAt(items[1..], id, pinned, i - 1); }
  }

  lemma {:induction false} SetPinUnique(items: seq<HistoryItem>, id: ContentId, pinned: bool)
    ensures |SetPin(items, id, pinned)| == |items|
    ensures forall i | 0 <= i < |items| :: SetPin(items, id, pinned)[i].id == items[i].id
  {
    if items != [] { SetPinUnique(items[1..], id, pinned); }
  }

  // ----- Over any run -----

  datatype Event = Added(item: HistoryItem) | Pinned(id: ContentId, on: bool) | Deleted(id: ContentId) | Cleared

  function Step(items: seq<HistoryItem>, cap: nat, e: Event): seq<HistoryItem> {
    match e
    case Added(item) => AddItem(items, cap, item)
    case Pinned(id, on) => SetPin(items, id, on)
    case Deleted(id) => WithoutId(items, id)
    case Cleared => []
  }

  function Run(cap: nat, es: seq<Event>): seq<HistoryItem> {
    if es == [] then [] else Step(Run(cap, es[..|es| - 1]), cap, es[|es| - 1])
  }

  lemma {:induction false} RunKeepsIdsUnique(cap: nat, es: seq<Event>)
    ensures UniqueIds(Run(cap, es))
  {
    if es != [] {
      var items := Run(cap, es[..|es| - 1]);
      RunKeepsIdsUnique(cap, es[..|es| - 1]);
      match es[|es| - 1]
      case Added(item) =>
        WithoutIdMembers(items, item.id);
        ConsUnique(item, WithoutId(items, item.id));
        var all := [item] + WithoutId(items, item.id);
        KeepNewestMembers(all, Quota(all, cap));
      case Pinned(id, on) => SetPinUnique(items, id, on);
      case Deleted(id) => WithoutIdMembers(items, id);
      case Cleared =>
    }
  }

  /** After an Add the buffer is within capacity, or holds only pinned items. */
  lemma AddRespectsCapacity(items: seq<HistoryItem>, cap: nat, item: HistoryItem)
    ensures var r := AddItem(items, cap, item);
            |r| <= cap || UnpinnedOnly(r) == []
  {
    var all := [item] + WithoutId(items, item.id);
    KeepNewestKeeps(all, Quota(all, cap));
    CountsAddUp(AddItem(items, cap, item));
  }

  /** The item just added stays exactly when it is pinned or the other pinned items leave room. */
  lemma AddedItemStaysIff(items: seq<HistoryItem>, cap: nat, item: HistoryItem)
    ensures item in AddItem(items, cap, item) <==> item.pinned || |PinnedOnly(WithoutId(items, item.id))| < cap
  {
    var rest := WithoutId(items, item.id);
    var all := [item] + rest;
    assert all[1..] == rest;
    WithoutIdMembers(items, item.id);
    if !item.pinned && Quota(all, cap) == 0 { KeepNewestMembers(rest, 0); }
  }
}
