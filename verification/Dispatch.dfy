/**
  The dispatcher (dispatchPacket of pkg/proxy/init_groups.go) and the reader that
  serves a stream's queues (outboundReader of stream_queue.go).
 */
module Dispatch {
  import opened Wrappers
  import opened Silence
  import opened Streams

  /** What the dispatcher knows of a stream: its pass, and the room in its two queues. */
  datatype Look = Look(ready: bool, stalled: bool, stale: bool, priorityRoom: bool, room: bool)

  function LookAt(s: Stream, stale: bool): Look
    reads s
  {
    Look(s.ready, s.sendStalled, stale, s.overTCP && |s.priority| < s.priorityCap,
         |s.ordinary| < s.ordinaryCap)
  }

  /** A place for the packet: the pass, the queue, and how far from start in rotation. */
  datatype Slot = Slot(pass: nat, priority: bool, distance: nat)

  /** 0 fresh and moving, 1 stale and moving, 2 its socket stalled. */
  function PassOf(l: Look): nat { if l.stalled then 2 else if l.stale then 1 else 0 }

  function AtDistance(looks: seq<Look>, start: nat, d: nat): Look
    requires |looks| > 0
  {
    looks[(start + d) % |looks|]
  }

  /** The slot can take the packet; only a small packet goes by a priority queue. */
  predicate Open(looks: seq<Look>, start: nat, small: bool, s: Slot) {
    && s.distance < |looks|
    && var l := AtDistance(looks, start, s.distance);
       l.ready && PassOf(l) == s.pass && if s.priority then small && l.priorityRoom else l.room
  }

  /** By pass, then priority before ordinary, then nearest in rotation. */
  predicate Before(a: Slot, b: Slot) {
    || a.pass < b.pass
    || (a.pass == b.pass && a.priority && !b.priority)
    || (a.pass == b.pass && a.priority == b.priority && a.distance <= b.distance)
  }

  ghost predicate IsBest(looks: seq<Look>, start: nat, small: bool, s: Slot) {
    Open(looks, start, small, s) && forall t: Slot :: Open(looks, start, small, t) ==> Before(s, t)
  }

  /** A ready stream with a stalled socket stands less than d from start. */
  ghost predicate StalledWithin(looks: seq<Look>, start: nat, d: nat) {
    exists k: nat :: k < d && k < |looks| && AtDistance(looks, start, k).ready && AtDistance(looks, start, k).stalled
  }

  /** How far a search that ended at s had looked: past everyone once, unless its first scan found s. */
  function Searched(n: nat, small: bool, s: Slot): nat {
    if s.pass > 0 || (small && !s.priority) then n else s.distance
  }

  // ---- One scan ------------------------------------------------------------------

  /** What one pass may try: streams of an earlier pass again, and its own. */
  predicate Tried(looks: seq<Look>, start: nat, small: bool, pass: nat, priority: bool, d: nat) {
    && d < |looks|
    && var l := AtDistance(looks, start, d);
       l.ready && PassOf(l) <= pass && if priority then small && l.priorityRoom else l.room
  }

  /** No queue of the kind takes the packet in this pass, up to distance d. */
  ghost predicate NoneTried(looks: seq<Look>, start: nat, small: bool, pass: nat, priority: bool, d: nat) {
    forall k: nat :: k < d ==> !Tried(looks, start, small, pass, priority, k)
  }

  ghost predicate PassFailed(looks: seq<Look>, start: nat, small: bool, pass: nat) {
    NoneTried(looks, start, small, pass, true, |looks|) && NoneTried(looks, start, small, pass, false, |looks|)
  }

  /** The pass has tried its queues up to slot, or all of them. */
  ghost predicate PassDone(looks: seq<Look>, start: nat, small: bool, pass: nat, slot: Option<Slot>) {
    match slot
    case None => PassFailed(looks, start, small, pass)
    case Some(s) =>
      && s.pass == pass && Tried(looks, start, small, pass, s.priority, s.distance)
      && NoneTried(looks, start, small, pass, s.priority, s.distance)
      && (!s.priority ==> NoneTried(looks, start, small, pass, true, |looks|))
  }

  /** The first place found by a pass, those before it having failed, is the best there is. */
  lemma FoundIsBest(looks: seq<Look>, start: nat, small: bool, s: Slot)
    requires PassDone(looks, start, small, s.pass, Some(s)) && AllFailed(looks, start, small, s.pass)
    ensures IsBest(looks, start, small, s)
  {
    TriedBefore(looks, start, small, s.pass, s.priority, s.distance);
    forall t: Slot | Open(looks, start, small, t) ensures Before(s, t) {
      assert Tried(looks, start, small, t.pass, t.priority, t.distance);
      TriedHasNotFailed(looks, start, small, t.pass, t.priority, t.distance);
    }
  }

  /** There is one best place. */
  lemma BestIsOne(looks: seq<Look>, start: nat, small: bool, s: Slot, t: Slot)
    requires IsBest(looks, start, small, s) && IsBest(looks, start, small, t)
    ensures s == t
  {
    assert Before(s, t) && Before(t, s);
  }

  /** No pass before this one has found a place. */
  ghost predicate AllFailed(looks: seq<Look>, start: nat, small: bool, pass: nat) {
    forall p: nat :: p < pass ==> PassFailed(looks, start, small, p)
  }

  lemma NoneYet(looks: seq<Look>, start: nat, small: bool)
    ensures AllFailed(looks, start, small, 0)
  {
  }

  lemma TriedHasNotFailed(looks: seq<Look>, start: nat, small: bool, pass: nat, priority: bool, d: nat)
    requires Tried(looks, start, small, pass, priority, d)
    ensures !PassFailed(looks, start, small, pass)
  {
  }

  lemma TriedBefore(looks: seq<Look>, start: nat, small: bool, pass: nat, priority: bool, d: nat)
    requires Tried(looks, start, small, pass, priority, d) && AllFailed(looks, start, small, pass)
    ensures Open(looks, start, small, Slot(pass, priority, d))
  {
    var p := PassOf(AtDistance(looks, start, d));
    TriedHasNotFailed(looks, start, small, p, priority, d);
  }

  ghost predicate AnyReady(looks: seq<Look>, start: nat) {
    exists k: nat :: k < |looks| && AtDistance(looks, start, k).ready
  }

  /** With every pass failed that may admit anybody, no slot is open, and every ready stream's ordinary queue is full. */
  lemma NothingOpen(looks: seq<Look>, start: nat, small: bool)
    requires AllFailed(looks, start, small, if StalledWithin(looks, start, |looks|) then 3 else 2)
    ensures AnyReady(looks, start) ==> SearchDone(looks, start, small, None, true)
  {
    assert PassFailed(looks, start, small, 0) && PassFailed(looks, start, small, 1);
    assert StalledWithin(looks, start, |looks|) ==> PassFailed(looks, start, small, 2);
    forall t: Slot ensures !Open(looks, start, small, t) {
      assert Open(looks, start, small, t) ==> Tried(looks, start, small, t.pass, t.priority, t.distance);
    }
    forall k: nat | k < |looks| && AtDistance(looks, start, k).ready ensures !AtDistance(looks, start, k).room {
      assert !Open(looks, start, small, Slot(PassOf(AtDistance(looks, start, k)), false, k));
    }
  }

  // ---- dispatchPacket ---------------------------------------------------------------

  ghost predicate Apart(streams: seq<Stream>) {
    forall i, k :: 0 <= i < k < |streams| ==> streams[i] != streams[k]
  }

  /** The streams as they stand; stale is each one's DispatchStale at the time. */
  ghost function Looks(streams: seq<Stream>, stale: seq<bool>): (l: seq<Look>)
    requires |stale| == |streams|
    reads streams
    ensures |l| == |streams| && forall i :: 0 <= i < |streams| ==> l[i] == LookAt(streams[i], stale[i])
  {
    seq(|streams|, i requires 0 <= i < |streams| reads streams => LookAt(streams[i], stale[i]))
  }

  datatype Queues = Queues(priority: seq<Packet>, ordinary: seq<Packet>)

  ghost function QueuesOf(streams: seq<Stream>): (q: seq<Queues>)
    reads streams
    ensures |q| == |streams|
    ensures forall i :: 0 <= i < |streams| ==> q[i] == Queues(streams[i].priority, streams[i].ordinary)
  {
    seq(|streams|, i requires 0 <= i < |streams| reads streams => Queues(streams[i].priority, streams[i].ordinary))
  }

  /** Stream i has pkt more in one of its queues, and no other queue has changed. */
  ghost predicate Placed(before: seq<Queues>, after: seq<Queues>, i: nat, priority: bool, pkt: Packet) {
    && i < |before| == |after| && (forall k :: 0 <= k < |before| && k != i ==> after[k] == before[k])
    && after[i] == if priority then Queues(before[i].priority + [pkt], before[i].ordinary)
                   else Queues(before[i].priority, before[i].ordinary + [pkt])
  }

  /** The stream d from start. */
  function Turned(n: nat, start: nat, d: nat): nat
    requires n > 0
  {
    (start + d) % n
  }

  /** One pass's look for a priority queue; passed tells of a stalled socket passed over. */
  method ScanPriority(streams: seq<Stream>, stale: seq<bool>, start: nat, pkt: Packet, pass: nat)
    returns (at: nat, passed: bool)
    requires |stale| == |streams| && Apart(streams) && pkt.size <= PRIORITY_PACKET_SIZE
    modifies streams`priority
    ensures at <= |streams| && NoneTried(old(Looks(streams, stale)), start, true, pass, true, at)
    ensures at < |streams| ==> Tried(old(Looks(streams, stale)), start, true, pass, true, at)
    ensures passed == (pass < 2 && StalledWithin(old(Looks(streams, stale)), start, at))
    ensures if at == |streams| then QueuesOf(streams) == old(QueuesOf(streams))
            else Placed(old(QueuesOf(streams)), QueuesOf(streams), Turned(|streams|, start, at), true, pkt)
  {
    var n := |streams|;
    passed := false;
    for i := 0 to n
      invariant forall k :: 0 <= k < n ==> streams[k].priority == old(streams[k].priority)
      invariant NoneTried(old(Looks(streams, stale)), start, true, pass, true, i)
      invariant passed == (pass < 2 && StalledWithin(old(Looks(streams, stale)), start, i))
    {
      var k := (start + i) % n;
      var st := streams[k];
      if !st.ready { continue; }
      if pass < 2 && st.sendStalled { passed := true; continue; }
      if pass == 0 && stale[k] { continue; }
      var taken := st.EnqueuePriority(pkt);
      if taken { return i, passed; }
    }
    at := n;
  }

  /** One pass's look for an ordinary queue; ready tells of a ready stream met. */
  method ScanOrdinary(streams: seq<Stream>, stale: seq<bool>, start: nat, pkt: Packet, small: bool, pass: nat)
    returns (at: nat, passed: bool, ready: bool)
    requires |stale| == |streams| && Apart(streams)
    modifies streams`ordinary
    ensures at <= |streams| && NoneTried(old(Looks(streams, stale)), start, small, pass, false, at)
    ensures at < |streams| ==> Tried(old(Looks(streams, stale)), start, small, pass, false, at)
    ensures passed == (pass < 2 && StalledWithin(old(Looks(streams, stale)), start, at))
    ensures at == |streams| ==> ready == AnyReady(old(Looks(streams, stale)), start)
    ensures if at == |streams| then QueuesOf(streams) == old(QueuesOf(streams))
            else ready && Placed(old(QueuesOf(streams)), QueuesOf(streams), Turned(|streams|, start, at), false, pkt)
  {
    var n := |streams|;
    passed, ready := false, false;
    for i := 0 to n
      invariant forall k :: 0 <= k < n ==> streams[k].ordinary == old(streams[k].ordinary)
      invariant NoneTried(old(Looks(streams, stale)), start, small, pass, false, i)
      invariant passed == (pass < 2 && StalledWithin(old(Looks(streams, stale)), start, i))
      invariant ready == exists k: nat :: k < i && AtDistance(old(Looks(streams, stale)), start, k).ready
    {
      var k := (start + i) % n;
      var st := streams[k];
      if !st.ready { continue; }
      ready := true;
      if pass < 2 && st.sendStalled { passed := true; continue; }
      if pass == 0 && stale[k] { continue; }
      var taken := st.Enqueue(pkt);
      if taken { return i, passed, ready; }
    }
    at := n;
  }

  /** What a search that found its slot, or none, has done to the queues. */
  ghost predicate Outcome(before: seq<Queues>, after: seq<Queues>, start: nat, pkt: Packet, slot: Option<Slot>) {
    match slot
    case None => after == before
    case Some(s) =>
      s.distance < |before| && Placed(before, after, Turned(|before|, start, s.distance), s.priority, pkt)
  }

  /** One pass: small packets by the priority queues first, each in the pass's own rotation. */
  method TryPass(streams: seq<Stream>, stale: seq<bool>, start: nat, pkt: Packet, pass: nat)
    returns (slot: Option<Slot>, passed: bool, ready: bool)
    requires |stale| == |streams| && Apart(streams)
    modifies streams`priority, streams`ordinary
    ensures PassDone(old(Looks(streams, stale)), start, pkt.size <= PRIORITY_PACKET_SIZE, pass, slot)
    ensures Outcome(old(QueuesOf(streams)), QueuesOf(streams), start, pkt, slot)
    ensures slot.None? ==>
      ready == AnyReady(old(Looks(streams, stale)), start) && Looks(streams, stale) == old(Looks(streams, stale))
    ensures slot.None? ==> passed == (pass < 2 && StalledWithin(old(Looks(streams, stale)), start, |streams|))
    ensures slot.Some? && pass == 0 ==>
      passed == StalledWithin(old(Looks(streams, stale)), start,
                              Searched(|streams|, pkt.size <= PRIORITY_PACKET_SIZE, slot.value))
    ensures slot.Some? && pass == 1 && passed ==> StalledWithin(old(Looks(streams, stale)), start, |streams|)
  {
    var n := |streams|;
    ghost var looks := Looks(streams, stale);
    passed := false;
    if pkt.size <= PRIORITY_PACKET_SIZE {
      var at, p := ScanPriority(streams, stale, start, pkt, pass);
      passed := p;
      if at < n { return Some(Slot(pass, true, at)), passed, true; }
      SameLooks(streams, stale, looks, old(QueuesOf(streams)));
    }
    var at, p, r := ScanOrdinary(streams, stale, start, pkt, pkt.size <= PRIORITY_PACKET_SIZE, pass);
    StalledMore(looks, start, at);
    passed, ready := passed || p, r;
    slot := if at < n then Some(Slot(pass, false, at)) else None;
    if at == n { SameLooks(streams, stale, looks, old(QueuesOf(streams))); }
  }

  /** A search changes what it looks at only by the packet it places. */
  lemma SameLooks(streams: seq<Stream>, stale: seq<bool>, looks: seq<Look>, before: seq<Queues>)
    requires |stale| == |streams| == |looks| && QueuesOf(streams) == before
    requires forall i :: 0 <= i < |streams| ==>
      looks[i] == Look(streams[i].ready, streams[i].sendStalled, stale[i],
                       streams[i].overTCP && |before[i].priority| < streams[i].priorityCap,
                       |before[i].ordinary| < streams[i].ordinaryCap)
    ensures Looks(streams, stale) == looks
  {
    forall i | 0 <= i < |streams| ensures Looks(streams, stale)[i] == looks[i] {
      assert QueuesOf(streams)[i] == Queues(streams[i].priority, streams[i].ordinary);
    }
  }

  lemma StalledMore(looks: seq<Look>, start: nat, d: nat)
    ensures StalledWithin(looks, start, d) ==> StalledWithin(looks, start, |looks|)
  {
  }

  /** What a search comes to: the best place, or none with every ready stream's ordinary queue full. */
  ghost predicate SearchDone(looks: seq<Look>, start: nat, small: bool, slot: Option<Slot>, anyReady: bool) {
    match slot
    case Some(s) => anyReady && IsBest(looks, start, small, s)
    case None =>
      && (forall t: Slot :: !Open(looks, start, small, t)) && anyReady == AnyReady(looks, start)
      && forall k: nat :: k < |looks| && AtDistance(looks, start, k).ready ==> !AtDistance(looks, start, k).room
  }

  /** A search that found slot had passed a stalled stream over before it. */
  ghost predicate SteeredBy(looks: seq<Look>, start: nat, small: bool, slot: Slot) {
    slot.pass < 2 && StalledWithin(looks, start, Searched(|looks|, small, slot))
  }

  /** The three passes, the third for stalled sockets alone. */
  method Search(streams: seq<Stream>, stale: seq<bool>, start: nat, pkt: Packet)
    returns (slot: Option<Slot>, anyReady: bool, passedStalled: bool)
    requires |stale| == |streams| && Apart(streams)
    modifies streams`priority, streams`ordinary
    ensures Outcome(old(QueuesOf(streams)), QueuesOf(streams), start, pkt, slot)
    ensures SearchDone(old(Looks(streams, stale)), start, pkt.size <= PRIORITY_PACKET_SIZE, slot, anyReady)
    ensures slot.Some? && slot.value.pass < 2 ==>
      passedStalled == SteeredBy(old(Looks(streams, stale)), start, pkt.size <= PRIORITY_PACKET_SIZE, slot.value)
  {
    ghost var looks := Looks(streams, stale);
    ghost var queues := QueuesOf(streams);
    ghost var small := pkt.size <= PRIORITY_PACKET_SIZE;
    hide *;
    passedStalled, anyReady, slot := false, false, None;
    NothingPlaced(queues, start, pkt);
    NoneYet(looks, start, small);
    var pass := 0;
    while pass < 3
      invariant pass <= 3 && slot == None
      invariant Looks(streams, stale) == looks && QueuesOf(streams) == queues
      invariant AllFailed(looks, start, small, pass)
      invariant pass > 0 ==> anyReady && AnyReady(looks, start) && passedStalled == StalledWithin(looks, start, |looks|)
      invariant pass == 0 ==> !passedStalled
    {
      if pass == 2 && !passedStalled { break; }
      ghost var before := passedStalled;
      var found, passed, ready := TryPass(streams, stale, start, pkt, pass);
      passedStalled := passedStalled || passed;
      if found.Some? {
        slot, anyReady := found, true;
        FoundSlot(looks, start, small, found.value, pass, before, passed);
        return;
      }
      NotFound(queues, QueuesOf(streams), start, pkt, looks, small, pass);
      anyReady := ready;
      if !anyReady {
        NobodyReady(looks, start, small);
        return;
      }
      pass := pass + 1;
    }
    NothingOpen(looks, start, small);
  }

  lemma NothingPlaced(queues: seq<Queues>, start: nat, pkt: Packet)
    ensures Outcome(queues, queues, start, pkt, None)
  {
  }

  lemma NotFound(queues: seq<Queues>, after: seq<Queues>, start: nat, pkt: Packet, looks: seq<Look>, small: bool, pass: nat)
    requires PassDone(looks, start, small, pass, None) && Outcome(queues, after, start, pkt, None)
    requires AllFailed(looks, start, small, pass)
    ensures AllFailed(looks, start, small, pass + 1) && after == queues
  {
  }

  lemma FoundSlot(looks: seq<Look>, start: nat, small: bool, s: Slot, pass: nat, before: bool, passed: bool)
    requires PassDone(looks, start, small, pass, Some(s)) && pass < 3 && AllFailed(looks, start, small, pass)
    requires if pass == 0 then !before && passed == StalledWithin(looks, start, Searched(|looks|, small, s))
             else before == StalledWithin(looks, start, |looks|)
    requires pass == 1 && passed ==> StalledWithin(looks, start, |looks|)
    ensures SearchDone(looks, start, small, Some(s), true)
    ensures s.pass == pass && (pass < 2 ==> (before || passed) == SteeredBy(looks, start, small, s))
  {
    FoundIsBest(looks, start, small, s);
    hide IsBest, Tried, NoneTried, StalledWithin;
  }

  class Dispatcher {
    var steered: nat
    var intoStalled: nat

    constructor ()
      ensures steered == 0 && intoStalled == 0
    {
      steered, intoStalled := 0, 0;
    }

    /**
      dispatchPacket: the packet goes into the best open place and no other
      queue, or nowhere if no place is open; with a ready stream in the pool
      that is only if every ready stream's ordinary queue is full. A placement
      counts as steered exactly when a stalled stream was passed over before
      it, and as into a stalled socket exactly when only such could take it.
     */
    method DispatchPacket(streams: seq<Stream>, stale: seq<bool>, start: nat, pkt: Packet)
      returns (sent: bool, anyReady: bool, ghost slot: Option<Slot>)
      requires |stale| == |streams| && Apart(streams)
      modifies this, streams`priority, streams`ordinary
      ensures Outcome(old(QueuesOf(streams)), QueuesOf(streams), start, pkt, slot) && sent == slot.Some?
      ensures var looks, small := old(Looks(streams, stale)), pkt.size <= PRIORITY_PACKET_SIZE;
              && SearchDone(looks, start, small, slot, anyReady)
              && steered == old(steered) + (if slot.Some? && SteeredBy(looks, start, small, slot.value) then 1 else 0)
              && intoStalled == old(intoStalled) + if slot.Some? && slot.value.pass == 2 then 1 else 0
    {
      var found, ready, passedStalled := Search(streams, stale, start, pkt);
      sent, anyReady, slot := found.Some?, ready, found;
      if found.Some? {
        if found.value.pass < 2 && passedStalled {
          steered := steered + 1;
        } else if found.value.pass == 2 {
          intoStalled := intoStalled + 1;
        }
      }
    }
  }

  lemma NobodyReady(looks: seq<Look>, start: nat, small: bool)
    requires !AnyReady(looks, start)
    ensures SearchDone(looks, start, small, None, false)
  {
  }

  // ---- outboundReader ---------------------------------------------------------------

  /** One read: late is what is queued while the reader waits, pick what the select takes if both queues have some. */
  datatype Wait = Wait(late: Queues, pick: bool)

  /** What a read takes, from the priority queue or not, and what it leaves. */
  datatype Read = Read(taken: Option<Packet>, fromPriority: bool, left: Queues, run: nat)

  function Bumped(run: nat): nat { if run + 1 < PRIORITY_BURST then run + 1 else PRIORITY_BURST }

  function TakePriority(q: Queues, run: nat): Read
    requires q.priority != []
  {
    Read(Some(q.priority[0]), true, q.(priority := q.priority[1..]), Bumped(run))
  }

  function TakeOrdinary(q: Queues): Read
    requires q.ordinary != []
  {
    Read(Some(q.ordinary[0]), false, q.(ordinary := q.ordinary[1..]), 0)
  }

  function Joined(q: Queues, late: Queues): Queues {
    Queues(q.priority + late.priority, q.ordinary + late.ordinary)
  }

  /** next */
  function Next(q: Queues, run: nat, w: Wait): Read {
    if run >= PRIORITY_BURST && q.ordinary != [] then var r := TakeOrdinary(q); r.(left := Joined(r.left, w.late))
    else if q.priority != [] then var r := TakePriority(q, run); r.(left := Joined(r.left, w.late))
    else
      var p := Joined(q, w.late);
      if p.priority != [] && (p.ordinary == [] || w.pick) then TakePriority(p, run)
      else if p.ordinary != [] then TakeOrdinary(p)
      else Read(None, false, p, run)
  }

  class OutboundReader {
    const s: Stream
    var priorityRun: nat

    constructor (s: Stream)
      ensures this.s == s && priorityRun == 0
    {
      this.s := s;
      priorityRun := 0;
    }

    /** late arrives while the reader is at it, and is queued whatever it takes. */
    method ReadNext(w: Wait) returns (pkt: Option<Packet>)
      modifies this, s`priority, s`ordinary
      ensures var r := Next(old(Queues(s.priority, s.ordinary)), old(priorityRun), w);
              pkt == r.taken && Queues(s.priority, s.ordinary) == r.left && priorityRun == r.run
    {
      if priorityRun >= PRIORITY_BURST && s.ordinary != [] {
        pkt, priorityRun := Some(s.ordinary[0]), 0;
        s.ordinary := s.ordinary[1..];
        s.priority, s.ordinary := s.priority + w.late.priority, s.ordinary + w.late.ordinary;
        return;
      }
      if s.priority != [] {
        pkt, priorityRun := Some(s.priority[0]), Bumped(priorityRun);
        s.priority := s.priority[1..];
        s.priority, s.ordinary := s.priority + w.late.priority, s.ordinary + w.late.ordinary;
        return;
      }
      s.priority, s.ordinary := s.priority + w.late.priority, s.ordinary + w.late.ordinary;
      if s.priority != [] && (s.ordinary == [] || w.pick) {
        pkt, priorityRun := Some(s.priority[0]), Bumped(priorityRun);
        s.priority := s.priority[1..];
      } else if s.ordinary != [] {
        pkt, priorityRun := Some(s.ordinary[0]), 0;
        s.ordinary := s.ordinary[1..];
      } else {
        pkt := None;
      }
    }
  }

  /** The queues and the run before read i of waits. */
  function After(q: Queues, run: nat, waits: seq<Wait>): Read
    decreases |waits|
  {
    if waits == [] then Read(None, false, q, run)
    else
      var r := After(q, run, waits[..|waits| - 1]);
      Next(r.left, r.run, waits[|waits| - 1])
  }

  /** After m reads in a row from the priority queue the run is at least m, up to the limit. */
  lemma {:induction false} RunCounts(q: Queues, run: nat, waits: seq<Wait>, m: nat)
    requires m <= |waits| && run <= PRIORITY_BURST
    requires forall i :: |waits| - m < i <= |waits| ==> After(q, run, waits[..i]).fromPriority
    ensures After(q, run, waits).run <= PRIORITY_BURST
    ensures After(q, run, waits).run >= if m < PRIORITY_BURST then m else PRIORITY_BURST
    decreases |waits|
  {
    if waits != [] {
      var prior := waits[..|waits| - 1];
      assert waits[..|waits|] == waits;
      forall i | |prior| - (if m > 0 then m - 1 else 0) < i <= |prior| ensures After(q, run, prior[..i]).fromPriority {
        assert prior[..i] == waits[..i];
      }
      RunCounts(q, run, prior, if m > 0 then m - 1 else 0);
    }
  }

  /**
    Data still moves: of PRIORITY_BURST + 1 reads in a row, each begun with a
    packet in the ordinary queue, one takes from it.
   */
  lemma BurstIsBounded(q: Queues, run: nat, waits: seq<Wait>)
    requires run <= PRIORITY_BURST && |waits| > PRIORITY_BURST
    requires forall i :: |waits| - PRIORITY_BURST - 1 <= i < |waits| ==> After(q, run, waits[..i]).left.ordinary != []
    ensures exists i :: |waits| - PRIORITY_BURST <= i <= |waits| && !After(q, run, waits[..i]).fromPriority
  {
    var prior := waits[..|waits| - 1];
    assert waits[..|waits|] == waits && waits[..|prior|] == prior;
    if forall i :: |prior| - PRIORITY_BURST < i <= |prior| ==> After(q, run, prior[..i]).fromPriority {
      RunCounts(q, run, prior, PRIORITY_BURST);
      assert !After(q, run, waits[..|waits|]).fromPriority;
    } else {
      var i :| |prior| - PRIORITY_BURST < i <= |prior| && !After(q, run, prior[..i]).fromPriority;
      assert prior[..i] == waits[..i];
    }
  }

  /** How many reads in a row have taken from the priority queue, those that took nothing aside. */
  function PrioritySince(q: Queues, waits: seq<Wait>): nat
    decreases |waits|
  {
    if waits == [] then 0
    else
      var r, n := After(q, 0, waits), PrioritySince(q, waits[..|waits| - 1]);
      if r.taken.None? then n else if r.fromPriority then n + 1 else 0
  }

  lemma {:induction false} RunIsCounted(q: Queues, waits: seq<Wait>)
    ensures var n := PrioritySince(q, waits); After(q, 0, waits).run == if n < 8 then n else 8
    decreases |waits|
  {
    if waits != [] { RunIsCounted(q, waits[..|waits| - 1]); }
  }

  /**
    Small packets go first: a read begun with one queued takes the oldest, but
    when the last eight taken were all small and data waits; then it takes the
    oldest of that. A read takes nothing only if nothing is queued or comes.
   */
  lemma PriorityFirst(q: Queues, waits: seq<Wait>, w: Wait)
    ensures var r, t := After(q, 0, waits), After(q, 0, waits + [w]);
            var held := PrioritySince(q, waits) >= 8 && r.left.ordinary != [];
            && (r.left.priority != [] && !held ==> t.fromPriority && t.taken == Some(r.left.priority[0]))
            && (held ==> !t.fromPriority && t.taken == Some(r.left.ordinary[0]))
            && (t.taken.None? <==> r.left == Queues([], []) && w.late == Queues([], []))
  {
    RunIsCounted(q, waits);
    assert (waits + [w])[..|waits|] == waits;
    hide PrioritySince;
  }

  /** The packets read from one queue, oldest first. */
  ghost function Taken(q: Queues, run: nat, waits: seq<Wait>, priority: bool): seq<Packet>
    decreases |waits|
  {
    if waits == [] then []
    else
      var r := After(q, run, waits);
      Taken(q, run, waits[..|waits| - 1], priority)
        + if r.taken.Some? && r.fromPriority == priority then [r.taken.value] else []
  }

  /** What was queued meanwhile. */
  ghost function Late(waits: seq<Wait>): Queues
    decreases |waits|
  {
    if waits == [] then Queues([], []) else Joined(Late(waits[..|waits| - 1]), waits[|waits| - 1].late)
  }

  lemma ReadKeepsAll(q: Queues, run: nat, w: Wait)
    ensures var r := Next(q, run, w);
            && Joined(q, w.late).priority == (if r.taken.Some? && r.fromPriority then [r.taken.value] else []) + r.left.priority
            && Joined(q, w.late).ordinary == (if r.taken.Some? && !r.fromPriority then [r.taken.value] else []) + r.left.ordinary
  {
    if q.priority != [] { assert q.priority == [q.priority[0]] + q.priority[1..]; }
    if q.ordinary != [] { assert q.ordinary == [q.ordinary[0]] + q.ordinary[1..]; }
  }

  /** Each queue is served in its own order, nothing lost and nothing twice: what was read and what is left is all there was. */
  lemma {:induction false} EachQueueInOrder(q: Queues, run: nat, waits: seq<Wait>)
    ensures Taken(q, run, waits, true) + After(q, run, waits).left.priority == q.priority + Late(waits).priority
    ensures Taken(q, run, waits, false) + After(q, run, waits).left.ordinary == q.ordinary + Late(waits).ordinary
    decreases |waits|
  {
    if waits != [] {
      var prior := waits[..|waits| - 1];
      var r := After(q, run, prior);
      var w := waits[|waits| - 1];
      var s := Next(r.left, r.run, w);
      var x, y := if s.taken.Some? && s.fromPriority then [s.taken.value] else [],
                  if s.taken.Some? && !s.fromPriority then [s.taken.value] else [];
      EachQueueInOrder(q, run, prior);
      ReadKeepsAll(r.left, r.run, w);
      Chained(Taken(q, run, prior, true), r.left.priority, q.priority, Late(prior).priority, w.late.priority, x, s.left.priority);
      Chained(Taken(q, run, prior, false), r.left.ordinary, q.ordinary, Late(prior).ordinary, w.late.ordinary, y, s.left.ordinary);
      hide Next;
    }
  }

  lemma Chained(taken: seq<Packet>, left: seq<Packet>, q: seq<Packet>, late: seq<Packet>, more: seq<Packet>,
                x: seq<Packet>, after: seq<Packet>)
    requires taken + left == q + late && left + more == x + after
    ensures (taken + x) + after == q + (late + more)
  {
    assert (taken + x) + after == taken + (x + after) == taken + (left + more) == (taken + left) + more;
  }
}
