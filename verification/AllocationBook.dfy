/**
  The process-wide allocation book of pkg/proxy/orphaned_allocations.go as it is
  kept: maps and tracked relays changed in place under one lock, each operation
  tied to a step of AllocationLedger. Of its maps, releasedAt, announced and
  succeeded are not part of this model.
 */
module AllocationBook {
  import opened AllocationLedger

  /** What each relay holds of the mark it was last counted under. */
  ghost predicate Ghosts(ghostOf: map<TrackedRelay, nat>)
    reads ghostOf.Keys
  {
    forall r :: r in ghostOf ==> r.ghostOf == ghostOf[r]
  }

  /** A relay is closed as it stops being tracked. */
  ghost predicate Closings(every: set<TrackedRelay>, tracked: set<TrackedRelay>)
    reads every
  {
    forall r :: r in every ==> (r.closed <==> r !in tracked)
  }

  ghost predicate Distinct(keys: seq<Key>) {
    forall i, j :: 0 <= i < j < |keys| ==> keys[i] != keys[j]
  }

  lemma DistinctNone()
    ensures Distinct([])
  {
  }

  lemma DistinctMore(keys: seq<Key>, key: Key)
    requires Distinct(keys) && key !in keys
    ensures Distinct(keys + [key])
  {
  }

  class Book {
    var live: map<Key, int>
    var tracked: set<TrackedRelay>
    var orphanedTill: map<Key, int>
    var orphans: map<Key, int>
    var markOf: map<Key, nat>
    var lastMark: nat
    ghost var view: Ledger

    /** The fields are the ledger's. */
    ghost predicate Tied()
      reads this, view.ghostOf.Keys
    {
      && view.live == live && view.tracked == tracked && view.till == orphanedTill && view.orphans == orphans
      && view.markOf == markOf && view.lastMark == lastMark && Ghosts(view.ghostOf)
    }

    ghost predicate Valid()
      reads this, view.ghostOf.Keys, view.every
    {
      Tied() && Inv(view) && Closings(view.every, tracked)
    }

    constructor ()
      ensures Valid() && view == EMPTY
    {
      live, tracked, orphanedTill, orphans, markOf, lastMark, view := map[], {}, map[], map[], map[], 0, EMPTY;
      EmptyHolds();
    }

    method TrackAllocation(user: string, addr: string) returns (r: TrackedRelay)
      requires Valid()
      modifies this
      ensures Valid() && fresh(r) && r.key == Key(user, addr) && !r.closed
      ensures view == Track(old(view), r)
    {
      hide LiveCounts, GhostCounts, Marks;
      var key := Key(user, addr);
      r := new TrackedRelay(key);
      TrackStep(view, r);
      live := live[key := (if key in live then live[key] else 0) + 1];
      tracked := tracked + {r};
      view := Track(view, r);
    }

    /** countedLocked */
    predicate CountedLocked(r: TrackedRelay, now: int)
      reads this, r
    {
      && r.key in orphanedTill && now < orphanedTill[r.key]
      && r.ghostOf != 0 && r.key in markOf && r.ghostOf == markOf[r.key]
    }

    lemma CountedHere(r: TrackedRelay, now: int)
      requires Tied() && r in view.ghostOf
      ensures CountedLocked(r, now) == Counted(view, r, now)
    {
    }

    method OrphanLocked(key: Key, now: int, n: int) returns (newMark: bool)
      requires Tied()
      modifies this`lastMark, this`markOf, this`orphans, this`orphanedTill, this`view
      ensures Tied() && view == Orphan(old(view), key, now, n)
      ensures newMark == !InForce(old(view), key, now)
    {
      newMark := key !in orphanedTill || now >= orphanedTill[key];
      var end := now + ORPHANED_LIFETIME;
      view := Orphan(view, key, now, n);
      if newMark {
        lastMark := lastMark + 1;
        markOf := markOf[key := lastMark];
        orphans := orphans[key := 0];
      }
      orphans := orphans[key := (if key in orphans then orphans[key] else 0) + n];
      if newMark || end > orphanedTill[key] {
        orphanedTill := orphanedTill[key := end];
      }
    }

    lemma GhostsOfEvery()
      requires Inv(view)
      ensures view.ghostOf.Keys == view.every && view.tracked <= view.every
    {
    }

    static lemma MarkedAfter(b: Ledger, key: Key, now: int, n: int)
      requires Inv(b)
      ensures key in Orphan(b, key, now, n).markOf
      ensures Orphan(b, key, now, n).ghostOf == b.ghostOf
    {
    }

    method PutUnder(r: TrackedRelay, n: nat)
      requires Tied() && r in view.ghostOf
      modifies this`view, r`ghostOf
      ensures Tied() && view == old(view).(ghostOf := old(view).ghostOf[r := n])
    {
      r.ghostOf := n;
      view := view.(ghostOf := view.ghostOf[r := n]);
    }

    static lemma CountGhostIs(b: Ledger, r: TrackedRelay, now: int)
      requires Inv(b)
      ensures Counted(b, r, now) ==> InForce(b, r.key, now) && CountGhost(b, r, now) == Orphan(b, r.key, now, 0)
      ensures !Counted(b, r, now) ==>
        var c := Orphan(b, r.key, now, 1);
        r.key in c.markOf && CountGhost(b, r, now) == c.(ghostOf := c.ghostOf[r := c.markOf[r.key]])
    {
      hide LiveCounts, GhostCounts, Numbered;
    }

    method CountGhostLocked(r: TrackedRelay, now: int) returns (newMark: bool)
      requires Tied() && Inv(view) && r in view.every
      modifies this`lastMark, this`markOf, this`orphans, this`orphanedTill, this`view, r`ghostOf
      ensures Tied() && Inv(view) && view == CountGhost(old(view), r, now)
      ensures newMark == !InForce(old(view), r.key, now)
    {
      CountedHere(r, now);
      CountGhostStep(view, r, now);
      GhostsOfEvery();
      MarkedAfter(view, r.key, now, 1);
      CountGhostIs(view, r, now);
      hide Inv, Orphan, Counted, CountGhost;
      if CountedLocked(r, now) {
        newMark := OrphanLocked(r.key, now, 0);
      } else {
        newMark := OrphanLocked(r.key, now, 1);
        PutUnder(r, markOf[r.key]);
      }
    }

    method ReleaseAllocation(r: TrackedRelay, sent: bool, now: int)
      requires Tied() && Inv(view) && r in view.tracked
      modifies this, r`ghostOf
      ensures Tied() && Inv(view) && view == Release(old(view), r, sent, now)
    {
      DropStep(view, r);
      hide Inv;
      var left := (if r.key in live then live[r.key] else 0) - 1;
      if left <= 0 { live := live - {r.key}; } else { live := live[r.key := left]; }
      tracked := tracked - {r};
      view := Drop(view, r);
      if !sent {
        var _ := CountGhostLocked(r, now);
      }
    }

    /** The first close alone releases the allocation; sent is whether its Refresh(0) went out. */
    method Close(r: TrackedRelay, sent: bool, now: int)
      requires Valid() && r in view.every
      modifies this, r
      ensures Valid() && r.closed
      ensures view == if old(r.closed) then old(view) else Release(old(view), r, sent, now)
    {
      hide Inv;
      if r.closed { return; }
      r.closed := true;
      ReleaseAllocation(r, sent, now);
    }

    // ---- orphanLiveAllocations ---------------------------------------------------

    /** What the loop has made of the book once done of key's relays are under the mark. */
    ghost static function PartlyUnder(b: Ledger, done: set<TrackedRelay>, n: nat): Ledger {
      b.(ghostOf := map r | r in b.ghostOf :: if r in done then n else b.ghostOf[r])
    }

    /** The relays of rs not yet counted under the mark on their key. */
    method CountUncounted(key: Key, rs: set<TrackedRelay>, now: int) returns (uncounted: nat)
      requires Tied() && Inv(view) && rs == OnKey(tracked, key)
      ensures uncounted == |Uncounted(view, key, now)|
    {
      GhostsOfEvery();
      hide Inv, Counted;
      uncounted := 0;
      var todo := rs;
      ghost var counted: set<TrackedRelay> := {};
      while todo != {}
        invariant todo <= rs && counted <= rs - todo && uncounted == |counted|
        invariant forall r :: r in rs - todo ==> (r in counted <==> !Counted(view, r, now))
        decreases |todo|
      {
        var r :| r in todo;
        todo := todo - {r};
        CountedHere(r, now);
        if !CountedLocked(r, now) {
          uncounted, counted := uncounted + 1, counted + {r};
        }
      }
      assert counted == Uncounted(view, key, now);
    }

    /** Every relay of rs is under mark n from here on. */
    static lemma PartlyNone(b: Ledger, n: nat)
      ensures PartlyUnder(b, {}, n) == b
    {
    }

    static lemma PartlyMore(b: Ledger, done: set<TrackedRelay>, r: TrackedRelay, n: nat)
      requires r in b.ghostOf
      ensures var c := PartlyUnder(b, done, n); PartlyUnder(b, done + {r}, n) == c.(ghostOf := c.ghostOf[r := n])
      ensures PartlyUnder(b, done, n).ghostOf.Keys == b.ghostOf.Keys
    {
    }

    method PutAllUnder(rs: set<TrackedRelay>, n: nat)
      requires Tied() && rs <= view.ghostOf.Keys
      modifies this`view, rs`ghostOf
      ensures Tied() && view == PartlyUnder(old(view), rs, n)
    {
      hide Tied, PartlyUnder;
      var todo := rs;
      ghost var done: set<TrackedRelay> := {};
      PartlyNone(view, n);
      while todo != {}
        invariant todo + done == rs && rs <= view.ghostOf.Keys && view.ghostOf.Keys == old(view.ghostOf.Keys)
        invariant Tied() && view == PartlyUnder(old(view), done, n)
        decreases |todo|
      {
        var r :| r in todo;
        PartlyMore(old(view), done, r, n);
        todo, done := todo - {r}, done + {r};
        PutUnder(r, n);
      }
      assert done == rs;
    }

    static lemma OrphanKeyIs(b: Ledger, key: Key, rs: set<TrackedRelay>, now: int)
      requires Inv(b) && rs == OnKey(b.tracked, key)
      ensures var c := Orphan(b, key, now, |Uncounted(b, key, now)|);
              && rs <= b.tracked <= c.ghostOf.Keys
              && key in c.markOf && OrphanKey(b, key, now) == PartlyUnder(c, rs, c.markOf[key])
    {
      MarkedAfter(b, key, now, |Uncounted(b, key, now)|);
      hide LiveCounts, GhostCounts, Numbered, Orphan;
    }

    method OrphanKeyLocked(key: Key, rs: set<TrackedRelay>, now: int)
      requires Tied() && Inv(view) && rs == OnKey(tracked, key)
      modifies this`lastMark, this`markOf, this`orphans, this`orphanedTill, this`view, rs`ghostOf
      ensures Tied() && Inv(view) && view == OrphanKey(old(view), key, now)
      ensures view.tracked == old(view).tracked && view.every == old(view).every
    {
      GhostsOfEvery();
      OrphanKeyStep(view, key, now);
      var uncounted := CountUncounted(key, rs, now);
      MarkedAfter(view, key, now, uncounted);
      OrphanKeyIs(view, key, rs, now);
      hide Inv, Orphan, OrphanKey, PartlyUnder, OnKey, Uncounted;
      var _ := OrphanLocked(key, now, uncounted);
      PutAllUnder(rs, markOf[key]);
    }

    /** byKey: the tracked relays of each key. */
    method GroupByKey() returns (byKey: map<Key, set<TrackedRelay>>)
      ensures forall key :: key in byKey ==> byKey[key] == OnKey(tracked, key) != {}
      ensures forall r :: r in tracked ==> r.key in byKey
    {
      byKey := map[];
      var todo := tracked;
      while todo != {}
        invariant todo <= tracked
        invariant forall key :: key in byKey ==> byKey[key] == OnKey(tracked - todo, key) != {}
        invariant forall r :: r in tracked - todo ==> r.key in byKey
        decreases |todo|
      {
        var r :| r in todo;
        todo := todo - {r};
        var others: set<TrackedRelay> := if r.key in byKey then byKey[r.key] else {};
        var more: set<TrackedRelay> := others + {r};
        byKey := byKey[r.key := more];
      }
    }

    /**
      orphanLiveAllocations, the keys in the order the map gives them: each live
      allocation is counted once under the mark on its key.
     */
    method OrphanLiveAllocations(now: int) returns (ghost keys: seq<Key>)
      requires Valid()
      modifies this`lastMark, this`markOf, this`orphans, this`orphanedTill, this`view, tracked`ghostOf
      ensures Valid() && view == OrphanKeys(old(view), keys, now)
      ensures forall key :: key in keys <==> exists r :: r in tracked && r.key == key
      ensures Distinct(keys)
    {
      hide Inv, OrphanKey, Distinct;
      assert Distinct([]) by { DistinctNone(); }
      var byKey := GroupByKey();
      var todo := byKey.Keys;
      keys := [];
      while todo != {}
        invariant todo <= byKey.Keys
        invariant forall key :: key in keys <==> key in byKey.Keys - todo
        invariant Distinct(keys)
        invariant Tied() && Inv(view) && tracked == old(tracked) && view.every == old(view).every
        invariant view == OrphanKeys(old(view), keys, now)
        decreases |todo|
      {
        var key :| key in todo;
        todo := todo - {key};
        OrphanKeyLocked(key, byKey[key], now);
        OrphanKeysMore(old(view), keys, key, now);
        DistinctMore(keys, key);
        keys := keys + [key];
      }
    }

    // ---- What a dial asks of the book ----------------------------------------------

    /** crowdedRelays: exactly the relays where STEER_AT allocations or more are ghosts now. */
    method CrowdedRelays(user: string, addrs: seq<string>, now: int) returns (crowded: set<string>)
      requires Valid()
      modifies this`orphanedTill, this`orphans, this`markOf, this`view
      ensures Valid() && view == SweepAll(old(view), user, addrs, now)
      ensures forall addr :: addr in crowded <==> addr in addrs && Crowded(old(view), Key(user, addr), now)
    {
      hide Inv, Crowded, Swept;
      crowded := {};
      assert addrs[..0] == [];
      for i := 0 to |addrs|
        invariant view == SweepAll(old(view), user, addrs[..i], now)
        invariant Tied()
        invariant forall addr :: addr in crowded <==> addr in addrs[..i] && Crowded(old(view), Key(user, addr), now)
      {
        var key := Key(user, addrs[i]);
        SweepAllStep(old(view), user, addrs[..i], now);
        CrowdedHere(old(view), view, key, now);
        assert addrs[..i + 1] == addrs[..i] + [addrs[i]];
        view := Sweep(view, key, now);
        if key in orphanedTill && now >= orphanedTill[key] {
          orphanedTill, orphans, markOf := orphanedTill - {key}, orphans - {key}, markOf - {key};
        } else if key in orphanedTill && (if key in orphans then orphans[key] else 0) >= STEER_AT {
          crowded := crowded + {addrs[i]};
        }
      }
      assert addrs[..|addrs|] == addrs;
      SweepAllStep(old(view), user, addrs, now);
    }

    /** The count kept with the mark tells a crowded relay, swept marks aside. */
    static lemma CrowdedHere(b: Ledger, c: Ledger, key: Key, now: int)
      requires Inv(b) && Swept(b, c, key, now)
      ensures Crowded(b, key, now)
         <==> InForce(c, key, now) && (if key in c.orphans then c.orphans[key] else 0) >= STEER_AT
    {
      GhostSetSize(b, key, now);
      hide GhostSet;
    }

    /** The live of each relay, and its ghosts under a mark in force. */
    method HeldGross(user: string, relays: seq<string>, now: int) returns (held: map<string, int>)
      requires Tied()
      ensures forall relay :: relay in held <==> relay in relays
      ensures forall relay :: relay in held ==> held[relay] == Gross(view, Key(user, relay), now)
    {
      held := map[];
      for i := 0 to |relays|
        invariant forall relay :: relay in held <==> relay in relays[..i]
        invariant forall relay :: relay in held ==> held[relay] == Gross(view, Key(user, relay), now)
      {
        var key := Key(user, relays[i]);
        var n := if key in live then live[key] else 0;
        if key in orphanedTill && now < orphanedTill[key] {
          n := n + if key in orphans then orphans[key] else 0;
        }
        held := held[relays[i] := n];
      }
    }

    /** gross less one for each live allocation of user's that is a ghost as well. */
    method LessBoth(user: string, gross: map<string, int>, now: int) returns (held: map<string, int>)
      requires Tied() && view.tracked <= view.ghostOf.Keys
      ensures LessGhosts(view, user, held, gross, view.tracked, now)
    {
      hide Counted, Both, LessGhosts;
      held := gross;
      var todo := tracked;
      ghost var done: set<TrackedRelay> := {};
      LessNone(view, user, held, now);
      while todo != {}
        invariant todo + done == tracked && todo !! done
        invariant LessGhosts(view, user, held, gross, done, now)
        decreases |todo|
      {
        var r :| r in todo;
        CountedHere(r, now);
        LessMore(view, user, held, gross, done, r, now);
        todo, done := todo - {r}, done + {r};
        if r.key.relay in held && r.key.user == user && CountedLocked(r, now) {
          held := held[r.key.relay := held[r.key.relay] - 1];
        }
      }
      assert done == view.tracked;
    }

    /** credsHeldOn (relay_move.go): for each of relays, the allocations of user held there, live or ghost, each once. */
    method CredsHeldOn(user: string, relays: seq<string>, now: int) returns (held: map<string, int>)
      requires Valid()
      ensures forall relay :: relay in held <==> relay in relays
      ensures forall relay :: relay in held ==> held[relay] == |HeldSet(view, Key(user, relay), now)|
    {
      GhostsOfEvery();
      hide Inv, Counted, HeldSet, Both, Gross, LessGhosts;
      var gross := HeldGross(user, relays, now);
      held := LessBoth(user, gross, now);
      LessAll(view, user, held, gross, now);
      forall relay | relay in held ensures held[relay] == |HeldSet(view, Key(user, relay), now)| {
        HeldIsTheUnion(view, Key(user, relay), now);
      }
    }

    static lemma BothMore(b: Ledger, s: set<TrackedRelay>, r: TrackedRelay, key: Key, now: int)
      requires r !in s
      ensures |Both(b, s + {r}, key, now)| == |Both(b, s, key, now)| + if key == r.key && Counted(b, r, now) then 1 else 0
    {
      hide Counted;
      assert Both(b, s + {r}, key, now) == Both(b, s, key, now) + if key == r.key && Counted(b, r, now) then {r} else {};
    }

    /** held is gross less the ghosts among done. */
    ghost static predicate LessGhosts(b: Ledger, user: string, held: map<string, int>, gross: map<string, int>,
                                      done: set<TrackedRelay>, now: int) {
      && held.Keys == gross.Keys
      && forall relay :: relay in gross ==> held[relay] == gross[relay] - |Both(b, done, Key(user, relay), now)|
    }

    static lemma LessNone(b: Ledger, user: string, gross: map<string, int>, now: int)
      ensures LessGhosts(b, user, gross, gross, {}, now)
    {
      forall key ensures Both(b, {}, key, now) == {} {}
    }

    static lemma LessMore(b: Ledger, user: string, held: map<string, int>, gross: map<string, int>,
                          done: set<TrackedRelay>, r: TrackedRelay, now: int)
      requires LessGhosts(b, user, held, gross, done, now) && r !in done
      ensures LessGhosts(b, user, if r.key.relay in held && r.key.user == user && Counted(b, r, now)
                                  then held[r.key.relay := held[r.key.relay] - 1] else held, gross, done + {r}, now)
    {
      hide Both, Counted;
      forall relay | relay in gross { BothMore(b, done, r, Key(user, relay), now); }
    }

    static lemma LessAll(b: Ledger, user: string, held: map<string, int>, gross: map<string, int>, now: int)
      requires LessGhosts(b, user, held, gross, b.tracked, now)
      requires forall relay :: relay in gross ==> gross[relay] == Gross(b, Key(user, relay), now)
      ensures held.Keys == gross.Keys && forall relay :: relay in held ==> held[relay] == Held(b, Key(user, relay), now)
    {
      hide Both, Gross;
    }
  }
}
