/**
  The downlink loss book itself: a ring of the last 4096 WireGuard counters in
  fixed-width arithmetic, refining LossView and charging relays as LossLedger
  says (pkg/proxy/relay_loss.go).
 */
module RelayLoss {
  import opened Wrappers
  import opened LossLedger
  import opened LossView

  /** The fields of the Go struct are uint64: Dafny checks that no expression on them wraps. */
  newtype uint64 = x: int | 0 <= x < 0x1_0000_0000_0000_0000
  newtype uint32 = x: int | 0 <= x < 0x1_0000_0000
  newtype uint16 = x: int | 0 <= x < 0x1_0000
  newtype byte = x: int | 0 <= x < 0x100

  /** wireguard-go's device.RejectAfterMessages. */
  const REJECT_AFTER_MESSAGES: uint64 := 0xFFFF_FFFF_FFFF_DFFF
  const IDLE_FLUSH_MS := 500
  const UINT16_RANGE := 0x1_0000

  datatype Sample = Sample(relay: string, rx: nat, lost: nat)

  function LittleEndian32(b: seq<byte>): uint32
    requires |b| == 4
  {
    (b[0] as int + 0x100 * (b[1] as int) + 0x1_0000 * (b[2] as int) + 0x100_0000 * (b[3] as int)) as uint32
  }

  function LittleEndian64(b: seq<byte>): uint64
    requires |b| == 8
  {
    (LittleEndian32(b[..4]) as int + 0x1_0000_0000 * (LittleEndian32(b[4..]) as int)) as uint64
  }

  /** What observe books at all: a transport message, of a named relay, with a counter a peer may send. */
  predicate Bookable(pkt: seq<byte>, relay: string) {
    && |pkt| >= 16 && pkt[0] == 4 && relay != ""
    && LittleEndian64(pkt[8..16]) < REJECT_AFTER_MESSAGES
  }

  lemma FinalizeCompose(v: View, mid: nat, upTo: nat)
    requires v.base <= mid <= upTo
    ensures Finalize(Finalize(v, mid), upTo) == Finalize(v, upTo)
  {
    var w := Finalize(v, mid);
    if mid > v.base && upTo > mid {
      assert Outcomes(v.held, v.base, upTo) == Outcomes(v.held, v.base, mid) + Outcomes(w.held, mid, upTo);
      assert Finalize(w, upTo).settled == Finalize(v, upTo).settled;
    }
  }

  lemma FinalizeSelf(v: View)
    ensures forall upTo: nat :: upTo <= v.base ==> Finalize(v, upTo) == v
  {
  }

  lemma FinalizeNext(v: View)
    requires forall c :: c in v.held ==> v.base <= c
    ensures var w := Finalize(v, v.base + 1);
            && w == v.(base := v.base + 1, held := v.held - {v.base}, settled := v.settled + [Look(v.held, v.base)])
            && Settle(w.settled) == SettleOne(Settle(v.settled), Look(v.held, v.base))
  {
    hide Settle, SettleOne, Look;
    SettleAppend(v.settled, Look(v.held, v.base));
    assert Outcomes(v.held, v.base, v.base + 1) == [Look(v.held, v.base)];
    assert (map c | c in v.held && v.base + 1 <= c :: v.held[c]) == v.held - {v.base};
  }

  // ---- What the fields mean, as predicates on their values ------------------

  /** Where counter c lives in the ring of RING slots. */
  function SlotOf(c: nat): (s: nat)
    ensures s < RING
  {
    c % 4096
  }

  /** No aliasing: a non-zero slot holds the one counter of the window with its residue. */
  ghost predicate RingHolds(seen: seq<uint64>, relayOf: seq<uint16>, base: nat, top: nat,
                            relays: seq<string>, held: map<nat, string>) {
    && |seen| == RING && |relayOf| == RING
    && (forall s :: 0 <= s < RING && seen[s] != 0 ==>
          SlotHolds(s, seen[s] as nat - 1, relayOf[s], base, top, relays, held))
    && (forall c :: c in held ==> base <= c && seen[SlotOf(c)] as nat == c + 1)
  }

  ghost predicate SlotHolds(s: int, c: nat, idx: uint16, base: nat, top: nat,
                            relays: seq<string>, held: map<nat, string>) {
    && base <= c < top && SlotOf(c) == s
    && idx as nat < |relays|
    && c in held && held[c] == relays[idx]
  }

  ghost predicate NamesHold(relays: seq<string>, index: map<string, uint16>) {
    && (forall i, j :: 0 <= i < j < |relays| ==> relays[i] != relays[j])
    && (forall r :: r in index <==> r in relays)
    && (forall r :: r in index ==> index[r] as nat < |relays|)
    && (forall i :: 0 <= i < |relays| && i < UINT16_RANGE ==> index[relays[i]] as nat == i)
  }

  /** What has been taken of each relay and what this window holds add up to total. */
  ghost predicate Adds(relays: seq<string>, window: seq<nat>, taken: multiset<string>, total: multiset<string>) {
    && |window| == |relays|
    && (forall i :: 0 <= i < |relays| ==> total[relays[i]] == taken[relays[i]] + window[i])
    && (forall r :: r !in relays ==> total[r] == taken[r] == 0)
  }

  lemma AddsMore(relays: seq<string>, window: seq<nat>, taken: multiset<string>, total: multiset<string>,
                 index: map<string, uint16>, i: nat, n: nat)
    requires Adds(relays, window, taken, total) && i < |relays| == |window| && NamesHold(relays, index)
    ensures Adds(relays, window[i := window[i] + n], taken, total[relays[i] := total[relays[i]] + n])
  {
  }

  lemma AddsName(relays: seq<string>, window: seq<nat>, taken: multiset<string>, total: multiset<string>, r: string)
    requires Adds(relays, window, taken, total) && r !in relays
    ensures Adds(relays + [r], window + [0], taken, total)
  {
    assert forall x :: x in relays ==> x in relays + [r];
  }

  lemma SlotFacts(s: int, c: nat, idx: uint16, base: nat, top: nat, relays: seq<string>, held: map<nat, string>)
    requires SlotHolds(s, c, idx, base, top, relays, held)
    ensures base <= c < top && SlotOf(c) == s && c in held && idx as nat < |relays| && held[c] == relays[idx]
  {
  }

  lemma SlotSettles(s: int, c: nat, idx: uint16, base: nat, top: nat, relays: seq<string>, held: map<nat, string>)
    requires SlotHolds(s, c, idx, base, top, relays, held) && c != base
    ensures SlotHolds(s, c, idx, base + 1, top, relays, held - {base})
  {
  }

  lemma SlotBooks(s: int, c: nat, idx: uint16, base: nat, top: nat, relays: seq<string>, held: map<nat, string>,
                  ctr: nat, name: string)
    requires SlotHolds(s, c, idx, base, top, relays, held) && c != ctr
    ensures SlotHolds(s, c, idx, base, if ctr + 1 > top then ctr + 1 else top, relays, held[ctr := name])
  {
  }

  lemma SlotKeeps(s: int, c: nat, idx: uint16, base: nat, top: nat, relays: seq<string>, held: map<nat, string>,
                  r: string)
    requires SlotHolds(s, c, idx, base, top, relays, held)
    ensures SlotHolds(s, c, idx, base, top, relays + [r], held)
  {
  }

  lemma RingAt(seen: seq<uint64>, relayOf: seq<uint16>, base: nat, top: nat,
               relays: seq<string>, held: map<nat, string>)
    requires RingHolds(seen, relayOf, base, top, relays, held)
    ensures |seen| == RING == |relayOf|
    ensures base in held <==> seen[SlotOf(base)] as nat == base + 1
    ensures forall c :: c in held ==> base <= c
    ensures base in held ==> relayOf[SlotOf(base)] as nat < |relays| && held[base] == relays[relayOf[SlotOf(base)]]
  {
    hide SlotHolds, SlotOf;
    var s := SlotOf(base);
    if seen[s] as nat == base + 1 {
      SlotFacts(s, base, relayOf[s], base, top, relays, held);
    }
  }

  lemma RingSettles(seen: seq<uint64>, relayOf: seq<uint16>, base: nat, top: nat,
                    relays: seq<string>, held: map<nat, string>)
    requires RingHolds(seen, relayOf, base, top, relays, held) && base in held
    ensures RingHolds(seen[SlotOf(base) := 0], relayOf, base + 1, top, relays, held - {base})
  {
    hide SlotHolds, SlotOf;
    var slot := SlotOf(base);
    var seen', held' := seen[slot := 0], held - {base};
    forall s | 0 <= s < RING && seen'[s] != 0
      ensures SlotHolds(s, seen'[s] as nat - 1, relayOf[s], base + 1, top, relays, held')
    {
      SlotFacts(s, seen[s] as nat - 1, relayOf[s], base, top, relays, held);
      SlotSettles(s, seen[s] as nat - 1, relayOf[s], base, top, relays, held);
    }
    forall c | c in held' ensures base + 1 <= c && seen'[SlotOf(c)] as nat == c + 1 {
      assert seen[SlotOf(c)] as nat == c + 1;
    }
  }

  lemma RingSkips(seen: seq<uint64>, relayOf: seq<uint16>, base: nat, top: nat,
                  relays: seq<string>, held: map<nat, string>)
    requires RingHolds(seen, relayOf, base, top, relays, held) && base !in held
    ensures RingHolds(seen, relayOf, base + 1, top, relays, held - {base})
  {
    hide SlotHolds, SlotOf;
    assert held - {base} == held;
    forall s | 0 <= s < RING && seen[s] != 0
      ensures SlotHolds(s, seen[s] as nat - 1, relayOf[s], base + 1, top, relays, held)
    {
      SlotFacts(s, seen[s] as nat - 1, relayOf[s], base, top, relays, held);
      SlotSettles(s, seen[s] as nat - 1, relayOf[s], base, top, relays, held);
    }
  }

  /** Two counters of one window never share a slot. */
  lemma OwnSlot(seen: seq<uint64>, relayOf: seq<uint16>, base: nat, top: nat,
                relays: seq<string>, held: map<nat, string>, c: nat, k: nat)
    requires RingHolds(seen, relayOf, base, top, relays, held) && top <= base + RING
    requires base <= c < base + RING && k in held && k != c
    ensures SlotOf(k) != SlotOf(c)
  {
    hide SlotHolds, SlotOf;
    var s := SlotOf(k);
    assert seen[s] as nat == k + 1;
    SlotFacts(s, k, relayOf[s], base, top, relays, held);
    SameResidue(base, k, c);
  }

  /** The first half of RingBooks, slot by slot. */
  lemma SlotsBook(seen: seq<uint64>, relayOf: seq<uint16>, base: nat, top: nat, relays: seq<string>,
                  held: map<nat, string>, c: uint64, idx: uint16, s: int)
    requires RingHolds(seen, relayOf, base, top, relays, held)
    requires base <= c as nat && c < REJECT_AFTER_MESSAGES && idx as nat < |relays| && 0 <= s < RING
    ensures var ctr := c as nat;
            var slot := SlotOf(ctr);
            var seen', relayOf' := seen[slot := c + 1], relayOf[slot := idx];
            seen'[s] != 0 ==>
              SlotHolds(s, seen'[s] as nat - 1, relayOf'[s], base, if ctr + 1 > top then ctr + 1 else top,
                        relays, held[ctr := relays[idx]])
  {
    var ctr, name := c as nat, relays[idx];
    if s == SlotOf(ctr) {
    } else if seen[s] != 0 {
      hide SlotHolds;
      SlotFacts(s, seen[s] as nat - 1, relayOf[s], base, top, relays, held);
      SlotBooks(s, seen[s] as nat - 1, relayOf[s], base, top, relays, held, ctr, name);
    }
  }

  lemma RingBooks(seen: seq<uint64>, relayOf: seq<uint16>, base: nat, top: nat,
                  relays: seq<string>, held: map<nat, string>, c: uint64, idx: uint16)
    requires RingHolds(seen, relayOf, base, top, relays, held)
    requires top <= base + RING && base <= c as nat < base + RING && c < REJECT_AFTER_MESSAGES
    requires idx as nat < |relays|
    ensures RingHolds(seen[SlotOf(c as nat) := c + 1], relayOf[SlotOf(c as nat) := idx], base,
                      if c as nat + 1 > top then c as nat + 1 else top, relays, held[c as nat := relays[idx]])
  {
    hide SlotHolds, SlotOf;
    var ctr := c as nat;
    var slot := SlotOf(ctr);
    var seen', held' := seen[slot := c + 1], held[ctr := relays[idx]];
    forall s | 0 <= s < RING ensures seen'[s] != 0 ==>
        SlotHolds(s, seen'[s] as nat - 1, relayOf[slot := idx][s], base, if ctr + 1 > top then ctr + 1 else top, relays, held')
    {
      SlotsBook(seen, relayOf, base, top, relays, held, c, idx, s);
    }
    forall k | k in held' ensures base <= k && seen'[SlotOf(k)] as nat == k + 1 {
      if k != ctr {
        OwnSlot(seen, relayOf, base, top, relays, held, ctr, k);
        assert seen[SlotOf(k)] as nat == k + 1;
      }
    }
  }

  lemma RingKeepsNames(seen: seq<uint64>, relayOf: seq<uint16>, base: nat, top: nat,
                       relays: seq<string>, held: map<nat, string>, r: string)
    requires RingHolds(seen, relayOf, base, top, relays, held)
    ensures RingHolds(seen, relayOf, base, top, relays + [r], held)
  {
    hide SlotHolds, SlotOf;
    forall s | 0 <= s < RING && seen[s] != 0
      ensures SlotHolds(s, seen[s] as nat - 1, relayOf[s], base, top, relays + [r], held)
    {
      SlotKeeps(s, seen[s] as nat - 1, relayOf[s], base, top, relays, held, r);
    }
  }

  ghost predicate RingClear(seen: seq<uint64>, relayOf: seq<uint16>) {
    |seen| == |relayOf| == RING && forall s :: 0 <= s < RING ==> seen[s] == 0
  }

  lemma RingEmpty(seen: seq<uint64>, relayOf: seq<uint16>, base: nat, top: nat, relays: seq<string>)
    requires RingClear(seen, relayOf)
    ensures RingHolds(seen, relayOf, base, top, relays, map[])
  {
  }

  lemma SameResidue(base: nat, k: nat, c: nat)
    requires base <= k < base + RING && base <= c < base + RING
    ensures SlotOf(k) == SlotOf(c) ==> k == c
  {
  }

  lemma StartHolds()
    ensures Inv(START) && Settle(START.settled) == EMPTY
    ensures Adds([], [], multiset{}, multiset{}) && NamesHold([], map[])
  {
  }

  class LossBook {
    var have: bool
    var receiver: uint32
    var hasLeft: bool
    var left: uint32
    var base: uint64
    var top: uint64
    const seen: array<uint64>
    const relayOf: array<uint16>
    var last: uint16
    var lastOK: bool
    var gap: nat
    var unplaced: nat
    var lastAt: int

    var relays: seq<string>
    var index: map<string, uint16>
    var rx: seq<nat>
    var lost: seq<nat>

    /** The window and every counter finalised since the reset, unbounded. */
    ghost var view: View
    /** What take has returned since the reset. */
    ghost var taken: Ledger

    ghost predicate Fields()
      reads this
    {
      && view.have == have && view.receiver == receiver as nat
      && view.hasLeft == hasLeft && view.left == left as nat
      && view.base == base as nat && view.top == top as nat
    }

    ghost predicate Ring()
      reads this, seen, relayOf
    {
      && seen.Length == RING && relayOf.Length == RING
      && RingHolds(seen[..], relayOf[..], base as nat, top as nat, relays, view.held)
    }

    ghost predicate Names()
      reads this
    {
      |rx| == |lost| == |relays| && NamesHold(relays, index)
    }

    ghost predicate Counts(l: Ledger)
      reads this
    {
      && l.gap == gap && l.unplaced == taken.unplaced + unplaced
      && (lastOK ==> last as nat < |relays|)
      && l.last == (if lastOK then Some(relays[last]) else None)
      && Adds(relays, rx, taken.rx, l.rx)
      && Adds(relays, lost, taken.lost, l.lost)
    }

    ghost predicate Consistent()
      reads this, seen, relayOf
    {
      Fields() && Ring() && Names() && Counts(Settle(view.settled))
    }

    /** What holds between any two calls. */
    ghost predicate Valid()
      reads this, seen, relayOf
    {
      && Consistent() && Inv(view)
      && top <= REJECT_AFTER_MESSAGES
    }

    constructor ()
      ensures Valid() && fresh(seen) && fresh(relayOf)
      ensures view == START && taken == EMPTY
    {
      have, receiver, hasLeft, left := false, 0, false, 0;
      base, top, last, lastOK, gap, unplaced, lastAt := 0, 0, 0, false, 0, 0, 0;
      seen, relayOf := new uint64[RING](_ => 0), new uint16[RING](_ => 0);
      relays, index, rx, lost := [], map[], [], [];
      view, taken := START, EMPTY;
    }

    method ClearSeen()
      requires seen.Length == RING && relayOf.Length == RING
      modifies seen
      ensures RingClear(seen[..], relayOf[..])
    {
      forall s | 0 <= s < seen.Length { seen[s] := 0; }
    }

    method ForgetKeypairs()
      modifies `receiver, `have, `base, `top, `left, `hasLeft
      ensures receiver == 0 && !have && base == top == 0 && left == 0 && !hasLeft
    {
      receiver, have, base, top := 0, false, 0, 0;
      left, hasLeft := 0, false;
    }

    method ForgetRelays()
      modifies `relays, `index, `rx, `lost
      ensures relays == [] && index == map[] && rx == lost == []
    {
      relays, index, rx, lost := [], map[], [], [];
    }

    method ForgetCounts()
      modifies `last, `lastOK, `gap, `unplaced, `lastAt, `view, `taken
      ensures !lastOK && gap == 0 && unplaced == 0 && lastAt == 0 && view == START && taken == EMPTY
    {
      last, lastOK, gap, unplaced, lastAt := 0, false, 0, 0, 0;
      view, taken := START, EMPTY;
    }

    method Reset()
      requires seen.Length == RING && relayOf.Length == RING
      modifies this, seen
      ensures Valid() && view == START && taken == EMPTY && lastAt == 0
    {
      hide RingHolds, RingClear, Settle, Inv, Adds, NamesHold;
      StartHolds();
      ForgetKeypairs();
      ForgetRelays();
      ClearSeen();
      ForgetCounts();
      RingEmpty(seen[..], relayOf[..], 0, 0, []);
    }

    /** The name relay is booked under: its own, while there are no more names than uint16 indices. */
    ghost function Booked(relay: string): string
      reads this
    {
      if relay in index && index[relay] as nat < |relays| then relays[index[relay]] else relay
    }

    method RelayIndexLocked(relay: string) returns (i: uint16)
      requires Consistent()
      modifies this`relays, this`index, this`rx, this`lost
      ensures Consistent()
      ensures relay in index && i == index[relay]
      ensures |relays| <= UINT16_RANGE ==> Booked(relay) == relay
    {
      hide RingHolds, Adds, Settle, Inv, NamesHold;
      NamesFacts(relays, index);
      if relay in index {
        return index[relay];
      }
      i := (|relays| % UINT16_RANGE) as uint16;
      ghost var l := Settle(view.settled);
      AddsName(relays, rx, taken.rx, l.rx, relay);
      AddsName(relays, lost, taken.lost, l.lost, relay);
      NamesGrow(relays, index, relay);
      RingKeepsNames(seen[..], relayOf[..], base as nat, top as nat, relays, view.held, relay);
      index := index[relay := i];
      relays := relays + [relay];
      rx := rx + [0];
      lost := lost + [0];
      NamesFacts(relays, index);
    }

    method PlaceGapLocked(next: uint16, ghost l: Ledger)
      requires Names() && Counts(l) && next as nat < |relays|
      modifies this`gap, this`lost, this`unplaced
      ensures Names()
      ensures Counts(PlaceGap(l, relays[next]))
    {
      if gap == 0 {
      } else if lastOK && last == next && gap < CHUNK {
        AddsMore(relays, lost, taken.lost, l.lost, index, next as nat, gap);
        lost := lost[next := lost[next] + gap];
      } else {
        unplaced := unplaced + gap;
      }
      gap := 0;
    }

    /** A delivered counter: the gap it closes, then the counter itself. */
    method DeliverLocked(relay: uint16, ghost l: Ledger)
      requires Names() && Counts(l) && relay as nat < |relays|
      modifies this`gap, this`lost, this`unplaced, this`last, this`lastOK, this`rx
      ensures Names() && Counts(SettleOne(l, Some(relays[relay])))
    {
      hide NamesHold, PlaceGap, Adds;
      PlaceGapLocked(relay, l);
      ghost var placed := PlaceGap(l, relays[relay]);
      AddsMore(relays, rx, taken.rx, placed.rx, index, relay as nat, 1);
      last, lastOK := relay, true;
      rx := rx[last := rx[last] + 1];
      assert placed.rx + multiset{relays[relay]} == placed.rx[relays[relay] := placed.rx[relays[relay]] + 1];
    }

    /** One turn of the loop, settling base. */
    method FinalizeOne()
      requires Consistent() && base < 0xFFFF_FFFF_FFFF_FFFF
      modifies this`base, this`last, this`lastOK, this`gap, this`unplaced, this`rx, this`lost, this`view, seen
      ensures Consistent()
      ensures view == Finalize(old(view), old(view).base + 1)
      ensures base == old(base) + 1
    {
      hide RingHolds, NamesHold, Adds, Settle, Finalize, PlaceGap, Inv;
      ghost var l, v := Settle(view.settled), view;
      var slot := base % 4096;
      RingAt(seen[..], relayOf[..], v.base, v.top, relays, v.held);
      FinalizeNext(v);
      if seen[slot] == base + 1 {
        RingSettles(seen[..], relayOf[..], v.base, v.top, relays, v.held);
        var relay := relayOf[slot];
        DeliverLocked(relay, l);
        ghost var before := seen[..];
        seen[slot] := 0;
        assert seen[..] == before[slot := 0];
      } else {
        RingSkips(seen[..], relayOf[..], v.base, v.top, relays, v.held);
        gap := gap + 1;
      }
      base := base + 1;
      view := Finalize(v, v.base + 1);
    }

    method FinalizeLocked(upTo: uint64)
      requires Consistent()
      modifies this`base, this`last, this`lastOK, this`gap, this`unplaced, this`rx, this`lost, this`view, seen
      ensures Consistent()
      ensures view == Finalize(old(view), upTo as nat)
      ensures base == if old(base) < upTo then upTo else old(base)
    {
      hide Ring, Names, Counts, Finalize;
      ghost var v := view;
      FinalizeSelf(v);
      while base < upTo
        invariant Consistent()
        invariant old(base) <= base && (base <= upTo || base == old(base))
        invariant view == Finalize(v, base as nat)
      {
        ghost var mid := base as nat;
        FinalizeOne();
        FinalizeCompose(v, mid, mid + 1);
      }
    }

    /** The part of observe that leaves the old keypair, whose debts are final now. */
    method RekeyLocked(rcv: uint32)
      requires Valid()
      modifies this`base, this`last, this`lastOK, this`gap, this`unplaced, this`rx, this`lost, this`view, seen,
               this`left, this`hasLeft, this`receiver, this`have, this`top
      ensures Valid() && have && view == Rekey(old(view), rcv as nat)
    {
      hide RingHolds, Settle, Adds, NamesHold;
      if !have || rcv != receiver {
        FinalizeLocked(top);
        FinalizedToTop(old(view));
        OpenKeypair(rcv, old(view));
      }
    }

    method OpenKeypair(rcv: uint32, ghost v: View)
      requires Consistent() && view == Finalize(v, v.top)
      requires (v.have, v.receiver, v.hasLeft, v.left) == (have, receiver as nat, hasLeft, left as nat)
      requires !v.have || v.receiver != rcv as nat
      modifies this`left, this`hasLeft, this`receiver, this`have, this`base, this`top, this`view, seen
      ensures Valid() && have && view == Rekey(v, rcv as nat)
    {
      hide RingHolds, Settle, Adds, NamesHold, RingClear, Finalize;
      ClearSeen();
      if have { left, hasLeft := receiver, true; }
      receiver, have, base, top := rcv, true, 0, 0;
      view := Rekey(v, rcv as nat);
      RingEmpty(seen[..], relayOf[..], 0, 0, relays);
    }

    /** observe's jump: a counter the ring has no room for moves the window up to it. */
    method JumpLocked(ctr: uint64)
      requires Valid() && base <= ctr < REJECT_AFTER_MESSAGES
      modifies this`base, this`top, this`view, seen
      ensures Consistent() && view == Jump(old(view), ctr as nat)
      ensures base <= top <= REJECT_AFTER_MESSAGES && base <= ctr < base + RING as uint64
    {
      hide RingHolds, Settle, Adds, NamesHold, RingClear;
      if ctr >= base + RING as uint64 {
        ghost var v := view;
        base := ctr + 1 - HORIZON as uint64;
        ClearSeen();
        if top < base { top := base; }
        view := Jump(v, ctr as nat);
        RingEmpty(seen[..], relayOf[..], base as nat, top as nat, relays);
      }
    }

    method BookLocked(ctr: uint64, idx: uint16)
      requires Consistent() && base <= ctr < REJECT_AFTER_MESSAGES && ctr < base + RING as uint64
      requires base <= top <= base + HORIZON as uint64 && idx as nat < |relays|
      modifies this`top, this`view, seen, relayOf
      ensures Consistent()
      ensures relays == old(relays)
      ensures view == old(view).(held := old(view).held[ctr as nat := relays[idx]], top := top as nat)
      ensures top == if ctr + 1 > old(top) then ctr + 1 else old(top)
    {
      hide RingHolds, Settle, Adds, NamesHold;
      var slot := ctr % 4096;
      ghost var seen0, relayOf0 := seen[..], relayOf[..];
      RingBooks(seen0, relayOf0, base as nat, top as nat, relays, view.held, ctr, idx);
      seen[slot] := ctr + 1;
      relayOf[slot] := idx;
      assert seen[..] == seen0[slot := ctr + 1] && relayOf[..] == relayOf0[slot := idx];
      if ctr + 1 > top { top := ctr + 1; }
      view := view.(held := view.held[ctr as nat := relays[idx]], top := top as nat);
    }

    /** A datagram through relay: the book takes it for what the transition makes of it, or not at all. */
    method Observe(pkt: seq<byte>, relay: string, now: int)
      requires Valid()
      modifies this, seen, relayOf
      ensures Valid()
      ensures taken == old(taken)
      ensures !Bookable(pkt, relay) ==> view == old(view)
      ensures Bookable(pkt, relay) ==>
                view == LossView.Observe(old(view), LittleEndian32(pkt[4..8]) as nat, LittleEndian64(pkt[8..16]) as nat,
                                         Booked(relay))
      ensures lastAt == if Bookable(pkt, relay) then now else old(lastAt)
      ensures |relays| <= UINT16_RANGE ==> Booked(relay) == relay
    {
      hide RingHolds, Settle, Adds, Inv, NamesHold;
      NamesFacts(relays, index);
      if |pkt| < 16 || pkt[0] != 4 || relay == "" { return; }
      var rcv := LittleEndian32(pkt[4..8]);
      var ctr := LittleEndian64(pkt[8..16]);
      if ctr >= REJECT_AFTER_MESSAGES { return; }
      ObserveTransport(rcv, ctr, relay, now);
    }

    method ObserveTransport(rcv: uint32, ctr: uint64, relay: string, now: int)
      requires Valid() && ctr < REJECT_AFTER_MESSAGES
      modifies this, seen, relayOf
      ensures Valid()
      ensures taken == old(taken)
      ensures view == LossView.Observe(old(view), rcv as nat, ctr as nat, Booked(relay)) && lastAt == now
      ensures |relays| <= UINT16_RANGE ==> Booked(relay) == relay
    {
      hide RingHolds, Settle, Adds, NamesHold;
      ghost var v := view;
      InvFacts(v);
      lastAt := now;
      NamesFacts(relays, index);
      if (!have || rcv != receiver) && have && (ctr >= NEW_KEYPAIR as uint64 || (hasLeft && rcv == left)) {
        return;
      }
      RekeyLocked(rcv);
      InvFacts(view);
      if ctr < base { return; }
      BookInWindow(ctr, relay);
    }

    method BookInWindow(ctr: uint64, relay: string)
      requires Valid() && have && base <= ctr < REJECT_AFTER_MESSAGES
      modifies this`base, this`last, this`lastOK, this`gap, this`unplaced, this`rx, this`lost, this`view,
               this`top, this`relays, this`index, seen, relayOf
      ensures Valid()
      ensures view == Book(Jump(old(view), ctr as nat), ctr as nat, Booked(relay))
      ensures |relays| <= UINT16_RANGE ==> Booked(relay) == relay
    {
      hide RingHolds, Settle, Adds, NamesHold, Finalize, Inv;
      ghost var v := view;
      InvFacts(v);
      JumpLocked(ctr);
      ghost var jumped := view;
      InvJump(v, ctr as nat);
      var idx := RelayIndexLocked(relay);
      NamesFacts(relays, index);
      BookLocked(ctr, idx);
      if top > HORIZON as uint64 {
        FinalizeLocked(top - HORIZON as uint64);
      }
      InvBook(jumped, ctr as nat, relays[idx]);
    }

    /** A window's counts, and the next window begun; an idle book is settled to its top first. */
    method Take(now: int) returns (samples: seq<Sample>, lostOnNone: nat)
      requires Valid()
      modifies this, seen
      ensures Valid()
      ensures view == if now - old(lastAt) >= IDLE_FLUSH_MS then Flush(old(view)) else old(view)
      ensures taken == Settle(view.settled) && Reports(old(taken), taken, samples, lostOnNone)
      ensures lastAt == old(lastAt)
    {
      hide RingHolds, Settle, NamesHold, Adds, Reports, Finalize, Inv;
      if have && now - lastAt >= IDLE_FLUSH_MS {
        ghost var v := view;
        InvFlush(v);
        FinalizeLocked(top);
      }
      samples, lostOnNone := TakeWindow();
    }

    method TakeWindow() returns (samples: seq<Sample>, lostOnNone: nat)
      requires Valid()
      modifies `rx, `lost, `unplaced, `taken
      ensures Valid()
      ensures taken == Settle(view.settled) && Reports(old(taken), taken, samples, lostOnNone)
    {
      hide RingHolds, Settle, NamesHold, Adds, Fresh, InWindowCounts, Inv;
      ghost var l := Settle(view.settled);
      NamesDistinct(relays, index);
      SamplesAreFresh(relays, rx, lost, taken, l);
      samples := SamplesOf(relays, rx, lost);
      lostOnNone, unplaced := unplaced, 0;
      rx, lost := seq(|relays|, _ => 0), seq(|relays|, _ => 0);
      taken := l;
    }
  }

  /** The window's samples, in the order of the relays, those with nothing left out. */
  method SamplesOf(relays: seq<string>, rx: seq<nat>, lost: seq<nat>) returns (samples: seq<Sample>)
    requires |rx| == |lost| == |relays|
    requires forall i, j :: 0 <= i < j < |relays| ==> relays[i] != relays[j]
    ensures forall s :: s in samples <==> InWindowCounts(s, relays, rx, lost, |relays|)
    ensures forall i, j :: 0 <= i < j < |samples| ==> samples[i].relay != samples[j].relay
  {
    samples := [];
    for i := 0 to |relays|
      invariant forall s :: s in samples <==> InWindowCounts(s, relays, rx, lost, i)
      invariant forall i, j :: 0 <= i < j < |samples| ==> samples[i].relay != samples[j].relay
    {
      if rx[i] + lost[i] > 0 {
        forall j | 0 <= j < |samples| ensures samples[j].relay != relays[i] {
          assert InWindowCounts(samples[j], relays, rx, lost, i);
        }
        samples := samples + [Sample(relays[i], rx[i], lost[i])];
      }
    }
  }

  ghost predicate InWindowCounts(s: Sample, relays: seq<string>, rx: seq<nat>, lost: seq<nat>, n: nat)
    requires n <= |rx| == |lost| == |relays|
  {
    s.rx + s.lost > 0 && exists k :: 0 <= k < n && s == Sample(relays[k], rx[k], lost[k])
  }

  lemma SamplesAreFresh(relays: seq<string>, rx: seq<nat>, lost: seq<nat>, was: Ledger, l: Ledger)
    requires |rx| == |lost| == |relays|
    requires Adds(relays, rx, was.rx, l.rx) && Adds(relays, lost, was.lost, l.lost)
    ensures forall s :: InWindowCounts(s, relays, rx, lost, |relays|) <==> Fresh(s, was, l)
    ensures Adds(relays, seq(|relays|, _ => 0), l.rx, l.rx) && Adds(relays, seq(|relays|, _ => 0), l.lost, l.lost)
    ensures was.rx <= l.rx && was.lost <= l.lost
  {
    forall r ensures was.rx[r] <= l.rx[r] && was.lost[r] <= l.lost[r] {
      if r in relays { var k :| 0 <= k < |relays| && relays[k] == r; }
    }
    forall s | Fresh(s, was, l) ensures InWindowCounts(s, relays, rx, lost, |relays|) {
      assert s.relay in relays;
    }
  }

  lemma NamesDistinct(relays: seq<string>, index: map<string, uint16>)
    requires NamesHold(relays, index)
    ensures forall i, j :: 0 <= i < j < |relays| ==> relays[i] != relays[j]
  {
  }

  /** Sample s is what its relay gained between the ledgers was and l, and it is something. */
  ghost predicate Fresh(s: Sample, was: Ledger, l: Ledger) {
    && l.rx[s.relay] == was.rx[s.relay] + s.rx
    && l.lost[s.relay] == was.lost[s.relay] + s.lost
    && s.rx + s.lost > 0
  }

  /** The samples are what every relay gained between the two ledgers, each once, and lostOnNone what unplaced did. */
  ghost predicate Reports(was: Ledger, l: Ledger, samples: seq<Sample>, lostOnNone: nat) {
    && was.rx <= l.rx && was.lost <= l.lost && l.unplaced == was.unplaced + lostOnNone
    && (forall s :: s in samples <==> Fresh(s, was, l))
    && (forall i, j :: 0 <= i < j < |samples| ==> samples[i].relay != samples[j].relay)
  }

  // ---- All the takes of a run -----------------------------------------------------------

  /** What one take returned. */
  datatype Window = Window(samples: seq<Sample>, lostOnNone: nat)

  /** The takes of a run, each from the ledger the one before it left. */
  ghost predicate TakenInTurn(ls: seq<Ledger>, ws: seq<Window>) {
    && |ls| == |ws| + 1 && ls[0] == EMPTY
    && forall k :: 0 <= k < |ws| ==> Reports(ls[k], ls[k + 1], ws[k].samples, ws[k].lostOnNone)
  }

  function Counted(samples: seq<Sample>): nat
    decreases |samples|
  {
    if samples == [] then 0
    else
      var s := samples[|samples| - 1];
      Counted(samples[..|samples| - 1]) + s.rx + s.lost
  }

  function Returned(ws: seq<Window>): nat
    decreases |ws|
  {
    if ws == [] then 0
    else Returned(ws[..|ws| - 1]) + Counted(ws[|ws| - 1].samples) + ws[|ws| - 1].lostOnNone
  }

  lemma {:induction false} CountedIs(samples: seq<Sample>, rx: multiset<string>, lost: multiset<string>)
    requires forall i, j :: 0 <= i < j < |samples| ==> samples[i].relay != samples[j].relay
    requires forall i :: 0 <= i < |samples| ==> rx[samples[i].relay] == samples[i].rx && lost[samples[i].relay] == samples[i].lost
    requires forall r :: r in rx || r in lost ==> exists i :: 0 <= i < |samples| && samples[i].relay == r
    ensures Counted(samples) == |rx| + |lost|
    decreases |samples|
  {
    if samples == [] {
      assert rx == multiset{} && lost == multiset{};
    } else {
      var s, prior := samples[|samples| - 1], samples[..|samples| - 1];
      var rx', lost' := rx[s.relay := 0], lost[s.relay := 0];
      forall r | r in rx' || r in lost'
        ensures exists i :: 0 <= i < |prior| && prior[i].relay == r
      {
        var i :| 0 <= i < |samples| && samples[i].relay == r;
        assert prior[i].relay == r;
      }
      CountedIs(prior, rx', lost');
    }
  }

  lemma ReportsAddUp(was: Ledger, l: Ledger, samples: seq<Sample>, lostOnNone: nat)
    requires Reports(was, l, samples, lostOnNone)
    ensures |l.rx| + |l.lost| + l.unplaced
         == |was.rx| + |was.lost| + was.unplaced + Counted(samples) + lostOnNone
  {
    var rx, lost := l.rx - was.rx, l.lost - was.lost;
    assert l.rx == was.rx + rx && l.lost == was.lost + lost;
    forall i | 0 <= i < |samples| ensures rx[samples[i].relay] == samples[i].rx && lost[samples[i].relay] == samples[i].lost {
      assert Fresh(samples[i], was, l);
    }
    forall r | r in rx || r in lost ensures exists i :: 0 <= i < |samples| && samples[i].relay == r {
      assert Fresh(Sample(r, rx[r], lost[r]), was, l);
      assert Sample(r, rx[r], lost[r]) in samples;
    }
    CountedIs(samples, rx, lost);
  }

  /**
    Conservation over a whole run: all the rx, lost and unplaced ever returned
    come to the number of counters settled at the last take, but for the gap
    still open then.
   */
  lemma TakesAddUp(ls: seq<Ledger>, ws: seq<Window>, os: seq<Outcome>)
    requires TakenInTurn(ls, ws) && ls[|ws|] == Settle(os)
    ensures Returned(ws) + Settle(os).gap == |os|
  {
    LedgersAddUp(ls, ws);
    Conservation(os);
  }

  lemma {:induction false} LedgersAddUp(ls: seq<Ledger>, ws: seq<Window>)
    requires TakenInTurn(ls, ws)
    ensures var l := ls[|ws|]; Returned(ws) == |l.rx| + |l.lost| + l.unplaced
    decreases |ws|
  {
    if ws != [] {
      var k := |ws| - 1;
      LedgersAddUp(ls[..|ws|], ws[..k]);
      ReportsAddUp(ls[k], ls[k + 1], ws[k].samples, ws[k].lostOnNone);
    }
  }

  lemma FinalizedToTop(v: View)
    ensures var w := Finalize(v, v.top); (w.have, w.receiver, w.hasLeft, w.left) == (v.have, v.receiver, v.hasLeft, v.left)
  {
  }

  lemma InvFlush(v: View)
    requires Inv(v)
    ensures Inv(Finalize(v, v.top)) && Finalize(v, v.top).top == v.top
  {
  }

  lemma InvJump(v: View, ctr: nat)
    requires Inv(v) && v.have && v.base <= ctr
    ensures Inv(Jump(v, ctr))
    ensures Jump(v, ctr).have && Jump(v, ctr).base <= ctr < Jump(v, ctr).base + RING
    ensures Jump(v, ctr).top <= Jump(v, ctr).base + HORIZON
  {
  }

  lemma InvFacts(v: View)
    requires Inv(v)
    ensures v.base <= v.top <= v.base + HORIZON
  {
  }

  lemma NamesFacts(relays: seq<string>, index: map<string, uint16>)
    requires NamesHold(relays, index)
    ensures forall r :: r in index <==> r in relays
    ensures forall r :: r in index ==> index[r] as nat < |relays|
    ensures forall r :: r in index && |relays| <= UINT16_RANGE ==> relays[index[r]] == r
  {
  }

  lemma NamesGrow(relays: seq<string>, index: map<string, uint16>, r: string)
    requires NamesHold(relays, index) && r !in index
    ensures NamesHold(relays + [r], index[r := (|relays| % UINT16_RANGE) as uint16])
  {
    var relays', index' := relays + [r], index[r := (|relays| % UINT16_RANGE) as uint16];
    assert relays'[|relays|] == r;
    forall x ensures x in index' <==> x in relays' {
      if x in relays { assert x in relays'; }
    }
    forall i | 0 <= i < |relays'| && i < UINT16_RANGE ensures index'[relays'[i]] as nat == i {
      if i < |relays| { assert relays[i] in relays; }
    }
  }
}
