/** Last-writer-wins keys and the Lamport clock. */
module Lww {
  import opened ByteStrings
  import opened Wrappers

  /** Compared field by field in this order. */
  datatype LwwKey = LwwKey(lamport: nat, wallTs: nat, origin: DeviceId)

  predicate KeyLess(a: LwwKey, b: LwwKey) {
    || a.lamport < b.lamport
    || (a.lamport == b.lamport && a.wallTs < b.wallTs)
    || (a.lamport == b.lamport && a.wallTs == b.wallTs && LexLess(a.origin, b.origin))
  }

  lemma KeyTrichotomy(a: LwwKey, b: LwwKey)
    ensures a == b || KeyLess(a, b) || KeyLess(b, a)
    ensures !(KeyLess(a, b) && KeyLess(b, a))
    ensures a == b ==> !KeyLess(a, b)
  {
    LexTrichotomy(a.origin, b.origin);
  }

  lemma KeyTransitive(a: LwwKey, b: LwwKey, c: LwwKey)
    requires KeyLess(a, b) && KeyLess(b, c)
    ensures KeyLess(a, c)
  {
    if a.lamport == b.lamport == c.lamport && a.wallTs == b.wallTs == c.wallTs {
      LexTransitive(a.origin, b.origin, c.origin);
    }
  }

  datatype Clock = Clock(lamport: nat, current: Option<LwwKey>)

  predicate WouldApply(c: Clock, key: LwwKey) {
    c.current.None? || KeyLess(c.current.value, key)
  }

  function Merge(c: Clock, remote: nat): Clock {
    if remote > c.lamport then c.(lamport := remote) else c
  }

  /** Takes `key` over when it is newer than what is applied. */
  function Apply(c: Clock, key: LwwKey): Clock {
    if WouldApply(c, key) then c.(current := Some(key)) else c
  }

  class LwwState {
    const me: DeviceId
    var lamport: nat
    var current: Option<LwwKey>

    function Now(): Clock
      reads this
    {
      Clock(lamport, current)
    }

    constructor (me: DeviceId)
      ensures this.me == me && Now() == Clock(0, None)
    {
      this.me := me;
      lamport, current := 0, None;
    }

    method Tick() returns (l: nat)
      modifies this`lamport
      ensures l == old(lamport) + 1 && Now() == old(Now()).(lamport := l)
    {
      lamport := lamport + 1;
      l := lamport;
    }

    method MergeLamport(remote: nat)
      modifies this`lamport
      ensures Now() == Merge(old(Now()), remote)
    {
      if remote > lamport { lamport := remote; }
    }

    method SetCurrent(key: LwwKey)
      modifies this`current
      ensures Now() == old(Now()).(current := Some(key))
    {
      current := Some(key);
    }
  }

  // ----- The newest of a set of keys -----

  /** `k` is the newest of `keys`; `None` when there are none. */
  ghost predicate IsNewest(k: Option<LwwKey>, keys: set<LwwKey>) {
    match k
    case None => keys == {}
    case Some(m) => m in keys && forall o | o in keys :: !KeyLess(m, o)
  }

  lemma NewestUnique(a: Option<LwwKey>, b: Option<LwwKey>, keys: set<LwwKey>)
    requires IsNewest(a, keys) && IsNewest(b, keys)
    ensures a == b
  {
    if a.Some? && b.Some? { KeyTrichotomy(a.value, b.value); }
  }

  /** Applying keys one at a time, in any order and with repeats, tracks the newest. */
  lemma ApplyTracksNewest(c: Clock, key: LwwKey, keys: set<LwwKey>)
    requires IsNewest(c.current, keys)
    ensures IsNewest(Apply(c, key).current, keys + {key})
  {
    hide KeyLess;
    if c.current.Some? {
      var m := c.current.value;
      KeyTrichotomy(m, key);
      KeyTrichotomy(key, key);
      if KeyLess(m, key) {
        forall o | o in keys ensures !KeyLess(key, o) {
          KeyTrichotomy(key, o);
          if KeyLess(key, o) { KeyTransitive(m, key, o); }
        }
      }
    } else {
      KeyTrichotomy(key, key);
    }
  }
}
