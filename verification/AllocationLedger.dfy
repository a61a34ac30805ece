/**
  The allocation book as a transition system on values
  (pkg/proxy/orphaned_allocations.go): which allocations are live, which were
  counted as ghosts under which numbered mark, and until when each mark holds.
  Times are nanoseconds of the wall clock, which may step back.
 */
module AllocationLedger {
  import opened Sets
  import opened Wrappers

  /** One TURN username on one relay. */
  datatype Key = Key(user: string, relay: string)

  /** One allocation: the ledger knows it by its object, and keeps its ghostOf apart. */
  class TrackedRelay {
    const key: Key
    var closed: bool
    var ghostOf: nat

    constructor (key: Key)
      ensures this.key == key && !closed && ghostOf == 0
    {
      this.key, closed, ghostOf := key, false, 0;
    }
  }

  const ORPHANED_LIFETIME := 600_000_000_000
  const STEER_AT := 5

  /** every is every allocation ever tracked, and ghostOf the mark each was last counted under, 0 if none. */
  datatype Ledger = Ledger(live: map<Key, int>, tracked: set<TrackedRelay>, every: set<TrackedRelay>,
                           till: map<Key, int>, orphans: map<Key, int>, markOf: map<Key, nat>,
                           lastMark: nat, ghostOf: map<TrackedRelay, nat>)

  const EMPTY := Ledger(map[], {}, {}, map[], map[], map[], 0, map[])

  function LiveOn(b: Ledger, key: Key): int { if key in b.live then b.live[key] else 0 }

  /** The mark on key is in force at now. */
  predicate InForce(b: Ledger, key: Key, now: int) { key in b.till && now < b.till[key] }

  /** countedLocked: a is one of the ghosts of the mark that holds its key now. */
  predicate Counted(b: Ledger, a: TrackedRelay, now: int) {
    && InForce(b, a.key, now) && a.key in b.markOf
    && a in b.ghostOf && b.ghostOf[a] != 0 && b.ghostOf[a] == b.markOf[a.key]
  }

  /** orphanLocked: n more ghosts on key; a mark that is not in force starts again under a new number. */
  function Orphan(b: Ledger, key: Key, now: int, n: int): Ledger {
    var end := now + ORPHANED_LIFETIME;
    if !InForce(b, key, now) then
      b.(lastMark := b.lastMark + 1, markOf := b.markOf[key := b.lastMark + 1],
         orphans := b.orphans[key := n], till := b.till[key := end])
    else
      b.(orphans := b.orphans[key := (if key in b.orphans then b.orphans[key] else 0) + n],
         till := if end > b.till[key] then b.till[key := end] else b.till)
  }

  /** countGhostLocked: a report counts a under the mark once, and only extends the mark after that. */
  function CountGhost(b: Ledger, a: TrackedRelay, now: int): Ledger {
    if Counted(b, a, now) then Orphan(b, a.key, now, 0)
    else
      var c := Orphan(b, a.key, now, 1);
      if a.key in c.markOf then c.(ghostOf := c.ghostOf[a := c.markOf[a.key]]) else c
  }

  function Track(b: Ledger, a: TrackedRelay): Ledger {
    b.(live := b.live[a.key := LiveOn(b, a.key) + 1], tracked := b.tracked + {a}, every := b.every + {a},
       ghostOf := b.ghostOf[a := 0])
  }

  /** The live count of a's key, without a. */
  function Drop(b: Ledger, a: TrackedRelay): Ledger {
    var left := LiveOn(b, a.key) - 1;
    b.(live := if left <= 0 then b.live - {a.key} else b.live[a.key := left], tracked := b.tracked - {a})
  }

  /** releaseAllocation: sent tells whether the Refresh(0) went out. */
  function Release(b: Ledger, a: TrackedRelay, sent: bool, now: int): Ledger {
    if sent then Drop(b, a) else CountGhost(Drop(b, a), a, now)
  }

  function OnKey(s: set<TrackedRelay>, key: Key): set<TrackedRelay> {
    set a | a in s && a.key == key
  }

  /** The live allocations of key not yet counted under its mark in force. */
  function Uncounted(b: Ledger, key: Key, now: int): set<TrackedRelay> {
    set a | a in b.tracked && a.key == key && !Counted(b, a, now)
  }

  /** What the loss of the network does to the live allocations of one key. */
  function OrphanKey(b: Ledger, key: Key, now: int): Ledger {
    var c := Orphan(b, key, now, |Uncounted(b, key, now)|);
    if key in c.markOf then
      c.(ghostOf := map a | a in c.ghostOf :: if a in b.tracked && a.key == key then c.markOf[key] else c.ghostOf[a])
    else c
  }

  /** orphanLiveAllocations, the keys taken in the order of the map's iteration. */
  function OrphanKeys(b: Ledger, keys: seq<Key>, now: int): Ledger
    decreases |keys|
  {
    if keys == [] then b else OrphanKeys(OrphanKey(b, keys[0], now), keys[1..], now)
  }

  lemma {:induction false} OrphanKeysMore(b: Ledger, keys: seq<Key>, key: Key, now: int)
    ensures OrphanKeys(b, keys + [key], now) == OrphanKey(OrphanKeys(b, keys, now), key, now)
    decreases |keys|
  {
    hide OrphanKey;
    if keys == [] {
      assert (keys + [key])[1..] == [];
    } else {
      assert (keys + [key])[1..] == keys[1..] + [key];
      OrphanKeysMore(OrphanKey(b, keys[0], now), keys[1..], key, now);
    }
  }

  /** What crowdedRelays leaves of the book. */
  function SweepAll(b: Ledger, user: string, addrs: seq<string>, now: int): Ledger
    decreases |addrs|
  {
    if addrs == [] then b
    else Sweep(SweepAll(b, user, addrs[..|addrs| - 1], now), Key(user, addrs[|addrs| - 1]), now)
  }

  /** crowdedRelays' sweep of an expired mark. */
  function Sweep(b: Ledger, key: Key, now: int): Ledger {
    if key in b.till && now >= b.till[key] then
      b.(till := b.till - {key}, orphans := b.orphans - {key}, markOf := b.markOf - {key})
    else b
  }

  // ---- The invariant ----------------------------------------------------------

  /** The allocations counted under mark number n on key. */
  ghost function Under(b: Ledger, key: Key, n: nat): set<TrackedRelay> {
    set a | a in b.every && a.key == key && a in b.ghostOf && b.ghostOf[a] == n
  }

  ghost predicate LiveCounts(b: Ledger) {
    forall key :: LiveOn(b, key) == |OnKey(b.tracked, key)| && (key in b.live ==> b.live[key] > 0)
  }

  ghost predicate GhostCounts(b: Ledger) {
    forall key :: key in b.markOf ==> key in b.orphans && b.orphans[key] == |Under(b, key, b.markOf[key])|
  }

  ghost predicate Marks(b: Ledger) {
    && b.till.Keys == b.orphans.Keys == b.markOf.Keys
    && Numbered(b.markOf, b.lastMark)
    && (forall a :: a in b.ghostOf ==> b.ghostOf[a] <= b.lastMark)
  }

  /** Marks are numbered from 1 to last, no two alike. */
  ghost predicate Numbered(markOf: map<Key, nat>, last: nat) {
    && (forall key :: key in markOf ==> 0 < markOf[key] <= last)
    && (forall k, l :: k in markOf && l in markOf && k != l ==> markOf[k] != markOf[l])
  }

  ghost predicate Inv(b: Ledger) {
    && b.tracked <= b.every && b.ghostOf.Keys == b.every
    && LiveCounts(b) && GhostCounts(b) && Marks(b)
  }

  /** No number given by now is given again: a mark in c is one b had, or newer than all of b's. */
  ghost predicate NumbersNew(b: Ledger, c: Ledger) {
    && b.lastMark <= c.lastMark
    && forall key :: key in c.markOf ==> (key in b.markOf && b.markOf[key] == c.markOf[key]) || b.lastMark < c.markOf[key]
  }

  /** The end of a mark still in force in c is no earlier than it was in b. */
  ghost predicate EndsLater(b: Ledger, c: Ledger) {
    forall key :: SameMark(b, c, key) ==> b.till[key] <= c.till[key]
  }

  ghost predicate SameMark(b: Ledger, c: Ledger, key: Key) {
    key in b.markOf && key in c.markOf && key in b.till && key in c.till && b.markOf[key] == c.markOf[key]
  }

  ghost predicate MarksMoveOn(b: Ledger, c: Ledger) {
    b.every <= c.every && NumbersNew(b, c) && EndsLater(b, c)
  }

  lemma OnKeyAdd(s: set<TrackedRelay>, a: TrackedRelay, key: Key)
    ensures a !in s ==> |OnKey(s + {a}, key)| == |OnKey(s, key)| + if a.key == key then 1 else 0
    ensures a in s ==> |OnKey(s - {a}, key)| == |OnKey(s, key)| - if a.key == key then 1 else 0
  {
    if a !in s {
      assert OnKey(s + {a}, key) == OnKey(s, key) + if a.key == key then {a} else {};
    } else {
      assert OnKey(s - {a}, key) == OnKey(s, key) - if a.key == key then {a} else {};
    }
  }

  lemma NextNumber(markOf: map<Key, nat>, key: Key, last: nat)
    requires Numbered(markOf, last)
    ensures Numbered(markOf[key := last + 1], last + 1)
  {
  }

  lemma OrphanKeepsMarks(b: Ledger, key: Key, now: int, n: int)
    requires Marks(b)
    ensures Marks(Orphan(b, key, now, n))
  {
    if InForce(b, key, now) {
      LongerMark(b, key, now, n);
    } else {
      FreshMark(b, key, now, n);
    }
  }

  lemma LongerMark(b: Ledger, key: Key, now: int, n: int)
    requires Marks(b) && InForce(b, key, now)
    ensures Marks(Orphan(b, key, now, n))
  {
    hide Numbered;
    var c := Orphan(b, key, now, n);
    assert c.till.Keys == b.till.Keys && c.orphans.Keys == b.orphans.Keys;
  }

  lemma FreshMark(b: Ledger, key: Key, now: int, n: int)
    requires Marks(b) && !InForce(b, key, now)
    ensures Marks(Orphan(b, key, now, n))
  {
    NextNumber(b.markOf, key, b.lastMark);
    hide Numbered;
    var c := Orphan(b, key, now, n);
    assert c.till.Keys == b.till.Keys + {key} == c.orphans.Keys;
    assert c.markOf.Keys == b.markOf.Keys + {key};
  }

  lemma OrphanMovesOn(b: Ledger, key: Key, now: int, n: int)
    requires Marks(b)
    ensures MarksMoveOn(b, Orphan(b, key, now, n))
  {
  }

  /** A fresh mark holds nobody yet: its number is new. */
  lemma NobodyUnder(b: Ledger, key: Key, n: nat)
    requires Marks(b) && n > b.lastMark
    ensures Under(b, key, n) == {}
  {
  }

  /**
    Counting more allocations of key under its mark: the step every report is an
    instance of. more are those not yet counted, and all of them are now.
   */
  ghost predicate Adds(b: Ledger, c: Ledger, key: Key, more: set<TrackedRelay>, now: int) {
    var d := Orphan(b, key, now, |more|);
    && c.live == b.live && c.tracked == b.tracked && c.every == b.every
    && c.till == d.till && c.orphans == d.orphans && c.markOf == d.markOf && c.lastMark == d.lastMark
    && c.ghostOf.Keys == b.ghostOf.Keys
    && key in c.markOf
    && (forall a :: a in b.ghostOf ==> c.ghostOf[a] == if a in more then c.markOf[key] else b.ghostOf[a])
    && (forall a :: a in more ==> a in b.every && a.key == key && !Counted(b, a, now))
  }

  lemma AddsGhosts(b: Ledger, c: Ledger, key: Key, more: set<TrackedRelay>, now: int, k: Key)
    requires Inv(b) && Adds(b, c, key, more, now) && k in c.markOf
    ensures k in c.orphans && c.orphans[k] == |Under(c, k, c.markOf[k])|
  {
    if k == key {
      AddsOwnGhosts(b, c, key, more, now);
    } else {
      hide LiveCounts, Numbered;
      assert Under(c, k, c.markOf[k]) == Under(b, k, c.markOf[k]);
    }
  }

  lemma AddsOwnGhosts(b: Ledger, c: Ledger, key: Key, more: set<TrackedRelay>, now: int)
    requires Inv(b) && Adds(b, c, key, more, now)
    ensures key in c.orphans && c.orphans[key] == |Under(c, key, c.markOf[key])|
  {
    var n := c.markOf[key];
    hide LiveCounts;
    if InForce(b, key, now) {
      assert Under(c, key, n) == Under(b, key, n) + more;
      assert Under(b, key, n) !! more;
    } else {
      NobodyUnder(b, key, n);
      assert Under(c, key, n) == more;
    }
  }

  lemma AddsStep(b: Ledger, c: Ledger, key: Key, more: set<TrackedRelay>, now: int)
    requires Inv(b) && Adds(b, c, key, more, now)
    ensures Inv(c) && MarksMoveOn(b, c)
  {
    OrphanKeepsMarks(b, key, now, |more|);
    OrphanMovesOn(b, key, now, |more|);
    SameMarks(Orphan(b, key, now, |more|), c, b);
    forall k | k in c.markOf ensures k in c.orphans && c.orphans[k] == |Under(c, k, c.markOf[k])| {
      AddsGhosts(b, c, key, more, now, k);
    }
    hide Marks, NumbersNew, EndsLater, GhostCounts, Under, Orphan;
    assert LiveCounts(c) by {
      assert forall k :: LiveOn(c, k) == LiveOn(b, k);
    }
  }

  /** d and c have the same marks, and c's allocations are under none newer. */
  lemma SameMarks(d: Ledger, c: Ledger, b: Ledger)
    requires Marks(d) && MarksMoveOn(b, d) && b.every <= c.every
    requires c.till == d.till && c.orphans == d.orphans && c.markOf == d.markOf && c.lastMark == d.lastMark
    requires forall a :: a in c.ghostOf ==> c.ghostOf[a] <= d.lastMark
    ensures Marks(c) && MarksMoveOn(b, c)
  {
  }

  lemma CountGhostAdds(b: Ledger, a: TrackedRelay, now: int)
    requires Inv(b) && a in b.every
    ensures Adds(b, CountGhost(b, a, now), a.key, if Counted(b, a, now) then {} else {a}, now)
  {
    hide LiveCounts, GhostCounts, Numbered;
  }

  lemma CountGhostStep(b: Ledger, a: TrackedRelay, now: int)
    requires Inv(b) && a in b.every
    ensures Inv(CountGhost(b, a, now)) && MarksMoveOn(b, CountGhost(b, a, now))
  {
    CountGhostAdds(b, a, now);
    hide Inv, MarksMoveOn, Adds, Counted, CountGhost;
    AddsStep(b, CountGhost(b, a, now), a.key, if Counted(b, a, now) then {} else {a}, now);
  }

  lemma OrphanKeyAdds(b: Ledger, key: Key, now: int)
    requires Inv(b)
    ensures Adds(b, OrphanKey(b, key, now), key, Uncounted(b, key, now), now)
  {
    hide LiveCounts, GhostCounts;
    var c := OrphanKey(b, key, now);
    forall a | a in b.ghostOf
      ensures c.ghostOf[a] == if a in Uncounted(b, key, now) then c.markOf[key] else b.ghostOf[a]
    {
    }
  }

  lemma OrphanKeyStep(b: Ledger, key: Key, now: int)
    requires Inv(b)
    ensures Inv(OrphanKey(b, key, now)) && MarksMoveOn(b, OrphanKey(b, key, now))
    ensures OrphanKey(b, key, now).tracked == b.tracked && OrphanKey(b, key, now).every == b.every
  {
    var c := OrphanKey(b, key, now);
    OrphanKeyAdds(b, key, now);
    hide Inv, MarksMoveOn, Adds;
    AddsStep(b, c, key, Uncounted(b, key, now), now);
  }

  lemma TrackStep(b: Ledger, a: TrackedRelay)
    requires Inv(b) && a !in b.every
    ensures Inv(Track(b, a)) && MarksMoveOn(b, Track(b, a))
  {
    var c := Track(b, a);
    forall key ensures LiveOn(c, key) == |OnKey(c.tracked, key)| {
      OnKeyAdd(b.tracked, a, key);
    }
    forall key | key in c.markOf ensures Under(c, key, c.markOf[key]) == Under(b, key, b.markOf[key]) {
    }
  }

  lemma DropStep(b: Ledger, a: TrackedRelay)
    requires Inv(b) && a in b.tracked
    ensures Inv(Drop(b, a)) && MarksMoveOn(b, Drop(b, a))
  {
    var c := Drop(b, a);
    forall key ensures LiveOn(c, key) == |OnKey(c.tracked, key)| {
      OnKeyAdd(b.tracked, a, key);
    }
    UnderKept(b, c);
    hide LiveOn, OnKey;
  }

  /** Nothing about the ghosts changes with the live counts. */
  lemma UnderKept(b: Ledger, c: Ledger)
    requires Marks(b) && GhostCounts(b)
    requires c.every == b.every && c.ghostOf == b.ghostOf && c.lastMark == b.lastMark
    requires c.till == b.till && c.orphans == b.orphans && c.markOf == b.markOf
    ensures Marks(c) && GhostCounts(c) && MarksMoveOn(b, c)
  {
    forall k | k in c.markOf ensures k in c.orphans && c.orphans[k] == |Under(c, k, c.markOf[k])| {
      assert Under(c, k, c.markOf[k]) == Under(b, k, b.markOf[k]);
    }
  }

  lemma ReleaseStep(b: Ledger, a: TrackedRelay, sent: bool, now: int)
    requires Inv(b) && a in b.tracked
    ensures Inv(Release(b, a, sent, now)) && MarksMoveOn(b, Release(b, a, sent, now))
  {
    DropStep(b, a);
    hide Inv, MarksMoveOn, Drop, CountGhost;
    if !sent {
      assert a in Drop(b, a).every by { InvEvery(b, a); }
      CountGhostStep(Drop(b, a), a, now);
      MoveOnAgain(b, Drop(b, a), CountGhost(Drop(b, a), a, now));
    }
  }

  lemma InvEvery(b: Ledger, a: TrackedRelay)
    requires Inv(b) && a in b.tracked
    ensures a in Drop(b, a).every
  {
  }

  lemma MoveOnAgain(b: Ledger, c: Ledger, d: Ledger)
    requires Inv(b) && Inv(c) && Inv(d) && MarksMoveOn(b, c) && MarksMoveOn(c, d)
    ensures MarksMoveOn(b, d)
  {
    hide LiveCounts, GhostCounts;
    forall key | key in d.markOf
      ensures (key in b.markOf && b.markOf[key] == d.markOf[key]) || b.lastMark < d.markOf[key]
    {
    }
    forall key | SameMark(b, d, key) ensures b.till[key] <= d.till[key] {
      assert SameMark(b, c, key) && SameMark(c, d, key);
    }
  }

  lemma SweepMarks(b: Ledger, key: Key, now: int)
    requires Marks(b)
    ensures Marks(Sweep(b, key, now)) && MarksMoveOn(b, Sweep(b, key, now))
  {
  }

  lemma SweepGhosts(b: Ledger, key: Key, now: int)
    requires GhostCounts(b)
    ensures GhostCounts(Sweep(b, key, now))
  {
    var c := Sweep(b, key, now);
    forall k | k in c.markOf ensures k in c.orphans && c.orphans[k] == |Under(c, k, c.markOf[k])| {
      assert Under(c, k, c.markOf[k]) == Under(b, k, b.markOf[k]);
    }
  }

  lemma SweepStep(b: Ledger, key: Key, now: int)
    requires Inv(b)
    ensures Inv(Sweep(b, key, now)) && MarksMoveOn(b, Sweep(b, key, now))
  {
    SweepMarks(b, key, now);
    SweepGhosts(b, key, now);
    hide Marks, GhostCounts, MarksMoveOn, OnKey;
    assert forall k :: LiveOn(Sweep(b, key, now), k) == LiveOn(b, k);
  }

  lemma {:induction false} OrphanKeysStep(b: Ledger, keys: seq<Key>, now: int)
    requires Inv(b)
    ensures Inv(OrphanKeys(b, keys, now)) && MarksMoveOn(b, OrphanKeys(b, keys, now))
    decreases |keys|
  {
    hide Inv, MarksMoveOn, OrphanKey;
    if keys == [] {
      MoveOnSelf(b);
    } else {
      OrphanKeyStep(b, keys[0], now);
      OrphanKeysStep(OrphanKey(b, keys[0], now), keys[1..], now);
      MoveOnAgain(b, OrphanKey(b, keys[0], now), OrphanKeys(b, keys, now));
    }
  }

  /** Sweeping drops the marks past their end and nothing else. */
  lemma {:induction false} SweepAllStep(b: Ledger, user: string, addrs: seq<string>, now: int)
    requires Inv(b)
    ensures Inv(SweepAll(b, user, addrs, now)) && MarksMoveOn(b, SweepAll(b, user, addrs, now))
    ensures var c := SweepAll(b, user, addrs, now);
            && c.live == b.live && c.tracked == b.tracked && c.every == b.every && c.ghostOf == b.ghostOf
            && forall key :: Swept(b, c, key, now)
    decreases |addrs|
  {
    hide Inv, MarksMoveOn, Swept;
    if addrs == [] {
      MoveOnSelf(b);
      forall key ensures Swept(b, b, key, now) { SweptSelf(b, key, now); }
    } else {
      var most, key := SweepAll(b, user, addrs[..|addrs| - 1], now), Key(user, addrs[|addrs| - 1]);
      SweepAllStep(b, user, addrs[..|addrs| - 1], now);
      SweepStep(most, key, now);
      MoveOnAgain(b, most, Sweep(most, key, now));
      forall k ensures Swept(b, Sweep(most, key, now), k, now) { SweptMore(b, most, key, k, now); }
    }
  }

  /** The mark on key is as it was, or was past its end and is gone. */
  ghost predicate Swept(b: Ledger, c: Ledger, key: Key, now: int) {
    || (&& (key in c.till <==> key in b.till) && (key in c.till ==> c.till[key] == b.till[key])
        && (key in c.orphans <==> key in b.orphans) && (key in c.orphans ==> c.orphans[key] == b.orphans[key])
        && (key in c.markOf <==> key in b.markOf) && (key in c.markOf ==> c.markOf[key] == b.markOf[key]))
    || (key in b.till && now >= b.till[key] && key !in c.till && key !in c.orphans && key !in c.markOf)
  }

  lemma SweptSelf(b: Ledger, key: Key, now: int)
    ensures Swept(b, b, key, now)
  {
  }

  lemma SweptMore(b: Ledger, most: Ledger, swept: Key, key: Key, now: int)
    requires Swept(b, most, key, now)
    ensures Swept(b, Sweep(most, swept, now), key, now)
  {
  }

  lemma {:induction false} SweepAllHeld(b: Ledger, user: string, addrs: seq<string>, now: int, k: Key)
    requires Inv(b)
    ensures HeldSet(SweepAll(b, user, addrs, now), k, now) == HeldSet(b, k, now)
    ensures GhostSet(SweepAll(b, user, addrs, now), k, now) == GhostSet(b, k, now)
    decreases |addrs|
  {
    if addrs != [] {
      hide HeldSet, GhostSet, Inv, Sweep;
      SweepAllStep(b, user, addrs[..|addrs| - 1], now);
      SweepAllHeld(b, user, addrs[..|addrs| - 1], now, k);
      SweepHeld(SweepAll(b, user, addrs[..|addrs| - 1], now), Key(user, addrs[|addrs| - 1]), now, k);
    }
  }

  /** A relay is crowded when STEER_AT of the user's allocations there, or more, are ghosts. */
  ghost predicate Crowded(b: Ledger, key: Key, now: int) {
    |GhostSet(b, key, now)| >= STEER_AT
  }

  /** What a credential holds and has as ghosts on each relay is the same in both books. */
  ghost predicate SameRoom(b: Ledger, c: Ledger, now: int) {
    forall key :: Crowded(c, key, now) == Crowded(b, key, now) && |HeldSet(c, key, now)| == |HeldSet(b, key, now)|
  }

  lemma SweepAllRoom(b: Ledger, user: string, addrs: seq<string>, now: int)
    requires Inv(b)
    ensures SameRoom(b, SweepAll(b, user, addrs, now), now)
  {
    hide HeldSet, GhostSet, Inv, SweepAll;
    forall key { SweepAllHeld(b, user, addrs, now, key); }
  }

  lemma MoveOnSelf(b: Ledger)
    ensures MarksMoveOn(b, b)
  {
  }

  // ---- Whole runs ----------------------------------------------------------------

  datatype Op =
    | TrackOp(a: TrackedRelay)
    | ReleaseOp(a: TrackedRelay, sent: bool, now: int)
    | OutOfReachOp(a: TrackedRelay, now: int)
    | NetworkLostOp(keys: seq<Key>, now: int)
    | SweepOp(key: Key, now: int)

  /** An allocation is tracked once, released while tracked (trackedRelay.closed), and reported only if ours. */
  predicate Allowed(b: Ledger, op: Op) {
    match op
    case TrackOp(a) => a !in b.every
    case ReleaseOp(a, _, _) => a in b.tracked
    case OutOfReachOp(a, _) => a in b.every
    case _ => true
  }

  function Do(b: Ledger, op: Op): Ledger {
    match op
    case TrackOp(a) => Track(b, a)
    case ReleaseOp(a, sent, now) => Release(b, a, sent, now)
    case OutOfReachOp(a, now) => CountGhost(b, a, now)
    case NetworkLostOp(keys, now) => OrphanKeys(b, keys, now)
    case SweepOp(key, now) => Sweep(b, key, now)
  }

  lemma DoStep(b: Ledger, op: Op)
    requires Inv(b) && Allowed(b, op)
    ensures Inv(Do(b, op)) && MarksMoveOn(b, Do(b, op))
  {
    hide Inv, MarksMoveOn, Track, Release, CountGhost, OrphanKeys, Sweep;
    match op
    case TrackOp(a) => TrackStep(b, a);
    case ReleaseOp(a, sent, now) => ReleaseStep(b, a, sent, now);
    case OutOfReachOp(a, now) => CountGhostStep(b, a, now);
    case NetworkLostOp(keys, now) => OrphanKeysStep(b, keys, now);
    case SweepOp(key, now) => SweepStep(b, key, now);
  }

  function Run(ops: seq<Op>): Ledger {
    if ops == [] then EMPTY else Do(Run(ops[..|ops| - 1]), ops[|ops| - 1])
  }

  ghost predicate AllAllowed(ops: seq<Op>) {
    forall i :: 0 <= i < |ops| ==> Allowed(Run(ops[..i]), ops[i])
  }

  /**
    In every reachable book live counts the tracked allocations, orphans the
    distinct allocations under the mark in force; numbers are never reused and
    no mark's end ever moves earlier, however the wall clock steps.
   */
  lemma {:induction false} BookHolds(ops: seq<Op>, i: nat)
    requires AllAllowed(ops) && i <= |ops|
    ensures Inv(Run(ops)) && Inv(Run(ops[..i])) && MarksMoveOn(Run(ops[..i]), Run(ops))
  {
    hide MarksMoveOn, Allowed, Do;
    if ops == [] {
      assert ops[..i] == ops;
      EmptyHolds();
      MoveOnSelf(EMPTY);
    } else if i == |ops| {
      assert ops[..i] == ops;
      RunStep(ops);
      MoveOnSelf(Run(ops));
    } else {
      hide Inv;
      var prior := ops[..|ops| - 1];
      assert prior[..i] == ops[..i];
      AllowedBefore(ops);
      BookHolds(prior, i);
      RunStep(ops);
      MoveOnAgain(Run(ops[..i]), Run(prior), Run(ops));
    }
  }

  lemma EmptyHolds()
    ensures Inv(EMPTY)
  {
    assert forall key :: OnKey({}, key) == {};
  }

  lemma AllowedBefore(ops: seq<Op>)
    requires AllAllowed(ops) && ops != []
    ensures AllAllowed(ops[..|ops| - 1]) && Allowed(Run(ops[..|ops| - 1]), ops[|ops| - 1])
  {
    var prior := ops[..|ops| - 1];
    forall k | 0 <= k < |prior| ensures Allowed(Run(prior[..k]), prior[k]) {
      assert prior[..k] == ops[..k];
    }
  }

  lemma {:induction false} RunStep(ops: seq<Op>)
    requires AllAllowed(ops) && ops != []
    ensures var prior := Run(ops[..|ops| - 1]); Inv(Run(ops)) && MarksMoveOn(prior, Run(ops))
  {
    hide Inv, MarksMoveOn, Allowed, Do;
    var prior := ops[..|ops| - 1];
    AllowedBefore(ops);
    if prior == [] {
      EmptyHolds();
    } else {
      RunStep(prior);
    }
    DoStep(Run(prior), ops[|ops| - 1]);
  }

  // ---- How long a mark holds --------------------------------------------------------

  /** op reports ghosts on key: an allocation out of reach or not released, or its network lost. */
  predicate Reports(op: Op, key: Key) {
    match op
    case ReleaseOp(a, sent, _) => a.key == key && !sent
    case OutOfReachOp(a, _) => a.key == key
    case NetworkLostOp(keys, _) => key in keys
    case _ => false
  }

  /** The latest of the reports so far and one at now: one under a mark that is over begins anew. */
  function Latter(last: Option<int>, now: int): int {
    if last.Some? && now < last.value + 600_000_000_000 && now <= last.value then last.value else now
  }

  /** The latest time of a report under the mark on key, when last was the latest before op; None without a mark. */
  function LatestAfter(last: Option<int>, op: Op, key: Key): Option<int> {
    if Reports(op, key) then Some(Latter(last, op.now))
    else if op.SweepOp? && op.key == key && last.Some? && op.now >= last.value + 600_000_000_000 then None
    else last
  }

  function Latest(ops: seq<Op>, key: Key): Option<int>
    decreases |ops|
  {
    if ops == [] then None else LatestAfter(Latest(ops[..|ops| - 1], key), ops[|ops| - 1], key)
  }

  /** The mark on key in b has the time last for its latest report. */
  predicate EndsAfter(b: Ledger, key: Key, last: Option<int>) {
    (key in b.till <==> last.Some?) && (last.Some? ==> b.till[key] == last.value + 600_000_000_000)
  }

  lemma OrphanEnds(b: Ledger, k: Key, now: int, n: int, key: Key, last: Option<int>)
    requires EndsAfter(b, key, last)
    ensures EndsAfter(Orphan(b, k, now, n), key, if k == key then Some(Latter(last, now)) else last)
  {
  }

  lemma OrphanKeyEnds(b: Ledger, k: Key, now: int, key: Key, last: Option<int>)
    requires EndsAfter(b, key, last)
    ensures EndsAfter(OrphanKey(b, k, now), key, if k == key then Some(Latter(last, now)) else last)
  {
    OrphanEnds(b, k, now, |Uncounted(b, k, now)|, key, last);
    assert OrphanKey(b, k, now).till == Orphan(b, k, now, |Uncounted(b, k, now)|).till;
    hide Orphan, OrphanKey, Uncounted;
  }

  lemma CountGhostEnds(b: Ledger, a: TrackedRelay, now: int, key: Key, last: Option<int>)
    requires EndsAfter(b, key, last)
    ensures EndsAfter(CountGhost(b, a, now), key, if a.key == key then Some(Latter(last, now)) else last)
  {
    var n := if Counted(b, a, now) then 0 else 1;
    OrphanEnds(b, a.key, now, n, key, last);
    hide Orphan, Counted;
    assert CountGhost(b, a, now).till == Orphan(b, a.key, now, n).till;
  }

  lemma {:induction false} OrphanKeysEnd(b: Ledger, keys: seq<Key>, now: int, key: Key, last: Option<int>)
    requires EndsAfter(b, key, last)
    ensures EndsAfter(OrphanKeys(b, keys, now), key, if key in keys then Some(Latter(last, now)) else last)
    decreases |keys|
  {
    if keys != [] {
      hide OrphanKey, EndsAfter;
      OrphanKeyEnds(b, keys[0], now, key, last);
      assert keys == [keys[0]] + keys[1..];
      OrphanKeysEnd(OrphanKey(b, keys[0], now), keys[1..], now, key,
                    if keys[0] == key then Some(Latter(last, now)) else last);
    }
  }

  lemma DoEnds(b: Ledger, op: Op, key: Key, last: Option<int>)
    requires EndsAfter(b, key, last)
    ensures EndsAfter(Do(b, op), key, LatestAfter(last, op, key))
  {
    hide CountGhost, OrphanKeys;
    match op
    case NetworkLostOp(keys, now) => OrphanKeysEnd(b, keys, now, key, last);
    case OutOfReachOp(a, now) => CountGhostEnds(b, a, now, key, last);
    case ReleaseOp(a, sent, now) => CountGhostEnds(Drop(b, a), a, now, key, last);
    case _ =>
  }

  /**
    A mark ends ten minutes after the latest report under it, however the wall
    clock steps and whichever order the reports come in.
   */
  lemma {:induction false} MarkEndsAfterLastReport(ops: seq<Op>, key: Key)
    ensures EndsAfter(Run(ops), key, Latest(ops, key))
    decreases |ops|
  {
    if ops != [] {
      MarkEndsAfterLastReport(ops[..|ops| - 1], key);
      hide Do, LatestAfter;
      DoEnds(Run(ops[..|ops| - 1]), ops[|ops| - 1], key, Latest(ops[..|ops| - 1], key));
    }
  }

  /** a is a ghost of a mark that holds until end or longer. */
  predicate GhostTill(b: Ledger, a: TrackedRelay, end: int) {
    && a in b.every && a.key in b.till && b.till[a.key] >= end && a.key in b.markOf
    && a in b.ghostOf && b.ghostOf[a] != 0 && b.ghostOf[a] == b.markOf[a.key]
  }

  /** op reports allocation a itself. */
  predicate ReportsIt(b: Ledger, op: Op, a: TrackedRelay) {
    match op
    case ReleaseOp(x, sent, _) => x == a && !sent
    case OutOfReachOp(x, _) => x == a
    case NetworkLostOp(keys, _) => a in b.tracked && a.key in keys
    case _ => false
  }

  lemma {:induction false} OrphanKeysGhost(b: Ledger, keys: seq<Key>, a: TrackedRelay, now: int, end: int)
    requires Inv(b) && now < end
    requires GhostTill(b, a, end) || (a in b.tracked && a.key in keys && end <= now + ORPHANED_LIFETIME)
    ensures GhostTill(OrphanKeys(b, keys, now), a, end)
    decreases |keys|
  {
    hide OrphanKey, Inv, GhostTill, MarksMoveOn;
    if keys != [] {
      OrphanKeyStep(b, keys[0], now);
      if GhostTill(b, a, end) || a.key == keys[0] { OrphanKeyGhost(b, keys[0], a, now, end); }
      assert keys == [keys[0]] + keys[1..];
      OrphanKeysGhost(OrphanKey(b, keys[0], now), keys[1..], a, now, end);
    }
  }

  lemma OrphanKeyGhost(b: Ledger, key: Key, a: TrackedRelay, now: int, end: int)
    requires Inv(b) && now < end
    requires GhostTill(b, a, end) || (a in b.tracked && a.key == key && end <= now + ORPHANED_LIFETIME)
    ensures GhostTill(OrphanKey(b, key, now), a, end)
  {
    hide LiveCounts, GhostCounts, Uncounted;
  }

  lemma CountGhostGhost(b: Ledger, x: TrackedRelay, a: TrackedRelay, now: int, end: int)
    requires Inv(b) && x in b.every && now < end
    requires GhostTill(b, a, end) || (x == a && end <= now + ORPHANED_LIFETIME)
    ensures GhostTill(CountGhost(b, x, now), a, end)
  {
    hide LiveCounts, GhostCounts;
  }

  /** A report of a makes it a ghost for ten minutes, and a ghost stays one through what happens before its end. */
  lemma DoGhost(b: Ledger, op: Op, a: TrackedRelay, end: int)
    requires Inv(b) && Allowed(b, op) && (!op.TrackOp? ==> op.now < end)
    requires GhostTill(b, a, end) || (ReportsIt(b, op, a) && end <= op.now + ORPHANED_LIFETIME)
    ensures GhostTill(Do(b, op), a, end)
  {
    match op
    case NetworkLostOp(keys, now) => OrphanKeysGhost(b, keys, a, now, end);
    case OutOfReachOp(x, now) => CountGhostGhost(b, x, a, now, end);
    case ReleaseOp(x, sent, now) =>
      DropStep(b, x);
      if !sent { CountGhostGhost(Drop(b, x), x, a, now, end); }
    case _ =>
      hide LiveCounts, GhostCounts;
  }

  /** Whatever happens from the j-th op on happens before end. */
  ghost predicate HappenBefore(ops: seq<Op>, j: nat, end: int) {
    forall m :: j <= m < |ops| ==> ops[m].TrackOp? || ops[m].now < end
  }

  lemma RunMore(ops: seq<Op>, k: nat)
    requires AllAllowed(ops) && k < |ops|
    ensures Run(ops[..k + 1]) == Do(Run(ops[..k]), ops[k]) && Allowed(Run(ops[..k]), ops[k])
  {
    assert ops[..k + 1][..k] == ops[..k];
  }

  lemma {:induction false} GhostStays(ops: seq<Op>, j: nat, a: TrackedRelay, end: int)
    requires AllAllowed(ops) && j <= |ops| && GhostTill(Run(ops[..j]), a, end) && HappenBefore(ops, j, end)
    ensures GhostTill(Run(ops), a, end)
    decreases |ops| - j
  {
    if j == |ops| {
      assert ops[..j] == ops;
    } else {
      assert !ops[j].TrackOp? ==> ops[j].now < end;
      assert HappenBefore(ops, j + 1, end);
      RunMore(ops, j);
      hide *;
      BookHolds(ops, j);
      DoGhost(Run(ops[..j]), ops[j], a, end);
      GhostStays(ops, j + 1, a, end);
    }
  }

  /**
    An allocation reported at a time is a ghost at every time less than ten
    minutes later, through whatever else happens before then: a report is never
    cut short by a later one, nor by the wall clock stepping back.
   */
  lemma ReportedIsHeld(ops: seq<Op>, i: nat, a: TrackedRelay, later: int)
    requires AllAllowed(ops) && i < |ops| && ReportsIt(Run(ops[..i]), ops[i], a)
    requires later < ops[i].now + 600_000_000_000 && HappenBefore(ops, i + 1, ops[i].now + 600_000_000_000)
    ensures Counted(Run(ops), a, later)
  {
    var end := ops[i].now + 600_000_000_000;
    RunMore(ops, i);
    hide Run, Do, Inv, AllAllowed, HappenBefore, MarksMoveOn;
    BookHolds(ops, i);
    DoGhost(Run(ops[..i]), ops[i], a, end);
    GhostStays(ops, i + 1, a, end);
  }

  // ---- What the counts are for ------------------------------------------------------

  /** A later report of an allocation counted under the mark in force holds it longer, not twice. */
  lemma CountedOnce(b: Ledger, a: TrackedRelay, now: int, later: int)
    requires Inv(b) && a in b.every
    requires InForce(CountGhost(b, a, now), a.key, later)
    ensures var c := CountGhost(b, a, now);
            var d := CountGhost(c, a, later);
            && Counted(c, a, later)
            && a.key in c.orphans && a.key in d.orphans && d.orphans[a.key] == c.orphans[a.key]
            && d.markOf == c.markOf && d.ghostOf == c.ghostOf
            && a.key in c.till && a.key in d.till
            && d.till[a.key] == if later + 600_000_000_000 > c.till[a.key] then later + 600_000_000_000 else c.till[a.key]
  {
    CountGhostStep(b, a, now);
  }

  /** The allocations of key still held at the relay: live, or ghosts under a mark in force, each once. */
  ghost function HeldSet(b: Ledger, key: Key, now: int): set<TrackedRelay> {
    set a | a in b.every && a.key == key && (a in b.tracked || Counted(b, a, now))
  }

  /** What credsHeldOn starts from for one relay: the live, and the ghosts under a mark in force. */
  function Gross(b: Ledger, key: Key, now: int): int {
    LiveOn(b, key) + if InForce(b, key, now) && key in b.orphans then b.orphans[key] else 0
  }

  /** Those of s counted under the mark in force on key. */
  function Both(b: Ledger, s: set<TrackedRelay>, key: Key, now: int): set<TrackedRelay> {
    set a | a in s && a.key == key && Counted(b, a, now)
  }

  /** credsHeldOn's count for one relay: less the live ones that are ghosts too. */
  function Held(b: Ledger, key: Key, now: int): int {
    Gross(b, key, now) - |Both(b, b.tracked, key, now)|
  }

  /** Inclusion and exclusion: the count is the size of the union. */
  lemma HeldIsTheUnion(b: Ledger, key: Key, now: int)
    requires Inv(b)
    ensures Held(b, key, now) == |HeldSet(b, key, now)|
  {
    var live, both := OnKey(b.tracked, key), Both(b, b.tracked, key, now);
    var ghosts := GhostSet(b, key, now);
    GhostSetSize(b, key, now);
    hide Counted, LiveCounts, GhostCounts, Marks;
    assert LiveOn(b, key) == |live| by { LiveSize(b, key); }
    assert HeldSet(b, key, now) == live + ghosts;
    assert both == live * ghosts;
    assert |live + ghosts| == |live| + |ghosts| - |live * ghosts|;
  }

  /** Counting ghosts adds them to what is held, whoever was held stays. */
  lemma AddsHeld(b: Ledger, c: Ledger, key: Key, more: set<TrackedRelay>, now: int, k: Key)
    requires Inv(b) && Adds(b, c, key, more, now)
    ensures HeldSet(c, k, now) == HeldSet(b, k, now) + if k == key then more else {}
  {
    hide LiveCounts, GhostCounts;
    forall a | a in b.every && a.key == k
      ensures Counted(c, a, now) <==> Counted(b, a, now) || a in more
    {
      if k == key && !InForce(b, key, now) { assert b.ghostOf[a] <= b.lastMark; }
    }
  }

  /**
    What the relay holds moves only by what happened there: tracking adds the
    allocation, a release that went out takes it away unless it was counted a
    ghost before, and neither a release that failed, a lost network nor a sweep
    changes it; a report adds its allocation.
   */
  lemma TrackHeld(b: Ledger, a: TrackedRelay, now: int, k: Key)
    requires Inv(b) && a !in b.every
    ensures HeldSet(Track(b, a), k, now) == HeldSet(b, k, now) + if k == a.key then {a} else {}
  {
    hide LiveCounts, GhostCounts, Marks;
    forall x | x in b.every ensures Counted(Track(b, a), x, now) == Counted(b, x, now) {
      assert x != a;
    }
  }

  lemma OutOfReachHeld(b: Ledger, a: TrackedRelay, now: int, k: Key)
    requires Inv(b) && a in b.every
    ensures HeldSet(CountGhost(b, a, now), k, now) == HeldSet(b, k, now) + if k == a.key then {a} else {}
  {
    CountGhostAdds(b, a, now);
    hide LiveCounts, GhostCounts, Marks, CountGhost;
    AddsHeld(b, CountGhost(b, a, now), a.key, if Counted(b, a, now) then {} else {a}, now, k);
  }

  lemma DropHeld(b: Ledger, a: TrackedRelay, now: int, k: Key)
    requires Inv(b) && a in b.tracked
    ensures HeldSet(Drop(b, a), k, now) == HeldSet(b, k, now) - if Counted(b, a, now) then {} else {a}
    ensures Counted(Drop(b, a), a, now) == Counted(b, a, now)
  {
    hide LiveCounts, GhostCounts, Marks;
  }

  lemma ReleaseHeld(b: Ledger, a: TrackedRelay, sent: bool, now: int, k: Key)
    requires Inv(b) && a in b.tracked
    ensures HeldSet(Release(b, a, sent, now), k, now)
         == HeldSet(b, k, now) - if sent && !Counted(b, a, now) then {a} else {}
  {
    DropStep(b, a);
    DropHeld(b, a, now, k);
    if !sent {
      hide LiveCounts, GhostCounts, Marks, Drop, CountGhost;
      assert a in Drop(b, a).every by { InvEvery(b, a); }
      OutOfReachHeld(Drop(b, a), a, now, k);
    }
  }

  lemma {:induction false} NetworkLostHeld(b: Ledger, keys: seq<Key>, now: int, k: Key)
    requires Inv(b)
    ensures HeldSet(OrphanKeys(b, keys, now), k, now) == HeldSet(b, k, now)
    decreases |keys|
  {
    if keys != [] {
      var c := OrphanKey(b, keys[0], now);
      OrphanKeyStep(b, keys[0], now);
      OrphanKeyAdds(b, keys[0], now);
      AddsHeld(b, c, keys[0], Uncounted(b, keys[0], now), now, k);
      hide Inv, Counted;
      NetworkLostHeld(c, keys[1..], now, k);
    }
  }

  lemma SweepHeld(b: Ledger, key: Key, now: int, k: Key)
    requires Inv(b)
    ensures HeldSet(Sweep(b, key, now), k, now) == HeldSet(b, k, now)
    ensures GhostSet(Sweep(b, key, now), k, now) == GhostSet(b, k, now)
  {
    hide LiveCounts, GhostCounts, Marks;
  }

  ghost function GhostSet(b: Ledger, key: Key, now: int): set<TrackedRelay> {
    set a | a in b.every && a.key == key && Counted(b, a, now)
  }

  lemma LiveSize(b: Ledger, key: Key)
    requires Inv(b)
    ensures LiveOn(b, key) == |OnKey(b.tracked, key)|
  {
  }

  lemma GhostSetSize(b: Ledger, key: Key, now: int)
    requires Inv(b)
    ensures |GhostSet(b, key, now)| == if InForce(b, key, now) && key in b.orphans then b.orphans[key] else 0
  {
    hide LiveCounts;
    if InForce(b, key, now) {
      assert GhostSet(b, key, now) == Under(b, key, b.markOf[key]);
    } else {
      assert GhostSet(b, key, now) == {};
    }
  }
}
