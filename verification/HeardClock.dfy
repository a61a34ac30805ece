/**
  The lock-free clocks of pkg/proxy/relay_silence.go: any number of readers report
  a relay heard at once, each load and each compare-and-swap a step of its own.
  Times are nanoseconds on the monotonic clock, 0 for never.
 */
module HeardClock {
  import opened Silence

  /** wholePathGap */
  const WHOLE_PATH_GAP := STALE_AFTER

  /** Where one noteRelayHeard call stands: its time and what it last loaded. */
  datatype Phase =
    | Loading(now: nat)
    | Swapping(now: nat, prev: nat)
    | GapLoading(now: nat)
    | GapSwapping(now: nat, cur: nat)
    | Finished

  /** The two shared clocks, the calls by number, and, for the account, the times stored and the times reported. */
  datatype Clocks = Clocks(heardAt: nat, gapEndAt: nat, heard: nat, calls: seq<Phase>, stored: seq<nat>, reported: seq<nat>)

  const NEVER := Clocks(0, 0, 0, [], [0], [])

  /** The step next due in call t. */
  function Stepped(c: Clocks, t: nat): Clocks
    requires t < |c.calls|
  {
    match c.calls[t]
    case Loading(now) =>
      c.(calls := c.calls[t := if now <= c.heardAt then Finished else Swapping(now, c.heardAt)])
    case Swapping(now, prev) =>
      if c.heardAt != prev then c.(calls := c.calls[t := Loading(now)])
      else
        c.(heardAt := now, stored := c.stored + [now],
           calls := c.calls[t := if prev != 0 && now - prev > WHOLE_PATH_GAP then GapLoading(now) else Finished])
    case GapLoading(now) =>
      c.(calls := c.calls[t := if now <= c.gapEndAt then Finished else GapSwapping(now, c.gapEndAt)])
    case GapSwapping(now, cur) =>
      if c.gapEndAt != cur then c.(calls := c.calls[t := GapLoading(now)])
      else c.(gapEndAt := now, calls := c.calls[t := Finished])
    case Finished => c
  }

  datatype Event = Call(now: nat) | Step(t: nat)

  function Next(c: Clocks, e: Event): Clocks {
    match e
    case Call(now) => c.(heard := c.heard + 1, calls := c.calls + [Loading(now)], reported := c.reported + [now])
    case Step(t) => if t < |c.calls| then Stepped(c, t) else c
  }

  function Run(events: seq<Event>): Clocks
    decreases |events|
  {
    if events == [] then NEVER else Next(Run(events[..|events| - 1]), events[|events| - 1])
  }

  // ---- The account ------------------------------------------------------------------

  /** Before the k-th stored time no relay was heard for more than the gap. */
  predicate EndsGap(stored: seq<nat>, k: nat) {
    0 < k < |stored| && stored[k - 1] != 0 && stored[k] - stored[k - 1] > WHOLE_PATH_GAP
  }

  ghost predicate IsGapEnd(stored: seq<nat>, now: nat) {
    exists k: nat :: EndsGap(stored, k) && stored[k] == now
  }

  /** The call still has to store now, or to see that a later time is stored. */
  predicate Reporting(ph: Phase, now: nat) { (ph.Loading? || ph.Swapping?) && ph.now == now }

  /** The call still has to move the end of the last gap to now. */
  predicate Ending(ph: Phase, now: nat) { (ph.GapLoading? || ph.GapSwapping?) && ph.now == now }

  ghost predicate SomeReporting(calls: seq<Phase>, now: nat) {
    exists t: nat :: t < |calls| && Reporting(calls[t], now)
  }

  ghost predicate SomeEnding(calls: seq<Phase>, now: nat) {
    exists t: nat :: t < |calls| && Ending(calls[t], now)
  }

  /** The stored times grow from 0, the newest of them the clock, and each was reported. */
  ghost predicate StoredHolds(stored: seq<nat>, heardAt: nat, reported: seq<nat>) {
    && stored != [] && stored[0] == 0 && heardAt == stored[|stored| - 1]
    && (forall i, j :: 0 <= i < j < |stored| ==> stored[i] < stored[j])
    && (forall k :: 0 < k < |stored| ==> stored[k] in reported)
  }

  /** No report is lost: it is at or behind the clock, or its call is still at it. */
  ghost predicate NoReportLost(reported: seq<nat>, heardAt: nat, calls: seq<Phase>) {
    forall now :: now in reported ==> now <= heardAt || SomeReporting(calls, now)
  }

  /** No gap is lost: its end is at or behind the kept one, or a call is still at it. */
  ghost predicate NoGapLost(stored: seq<nat>, gapEndAt: nat, calls: seq<Phase>) {
    && (gapEndAt == 0 || IsGapEnd(stored, gapEndAt))
    && (forall now: nat :: IsGapEnd(stored, now) ==> now <= gapEndAt || SomeEnding(calls, now))
  }

  ghost predicate CallHolds(ph: Phase, c: Clocks) {
    match ph
    case Loading(now) => now in c.reported
    case Swapping(now, prev) => now in c.reported && prev < now && prev <= c.heardAt
    case GapLoading(now) => IsGapEnd(c.stored, now)
    case GapSwapping(now, cur) => IsGapEnd(c.stored, now) && cur < now && cur <= c.gapEndAt
    case Finished => true
  }

  ghost predicate Inv(c: Clocks) {
    && StoredHolds(c.stored, c.heardAt, c.reported)
    && NoReportLost(c.reported, c.heardAt, c.calls)
    && NoGapLost(c.stored, c.gapEndAt, c.calls)
    && (forall ph :: ph in c.calls ==> CallHolds(ph, c))
    && c.heard == |c.reported|
  }

  /** A call that moves on leaves the others at their reports and ends, and its own unless it is done with them. */
  lemma OthersGoOn(calls: seq<Phase>, t: nat, ph: Phase, now: nat)
    requires t < |calls|
    ensures SomeReporting(calls, now) && (Reporting(calls[t], now) ==> Reporting(ph, now)) ==>
      SomeReporting(calls[t := ph], now)
    ensures SomeEnding(calls, now) && (Ending(calls[t], now) ==> Ending(ph, now)) ==> SomeEnding(calls[t := ph], now)
    ensures Ending(ph, now) ==> SomeEnding(calls[t := ph], now)
  {
    var next := calls[t := ph];
    assert forall u: nat :: u < |calls| ==> next[u] == if u == t then ph else calls[u];
    if SomeReporting(calls, now) {
      var u: nat :| u < |calls| && Reporting(calls[u], now);
      assert Reporting(calls[t], now) ==> Reporting(ph, now) ==> Reporting(next[u], now);
    }
    if SomeEnding(calls, now) {
      var u: nat :| u < |calls| && Ending(calls[u], now);
      assert Ending(calls[t], now) ==> Ending(ph, now) ==> Ending(next[u], now);
    }
    assert next[t] == ph;
  }

  /** The calls once call t has moved on to ph: each of them holds if ph does, the clocks having grown. */
  lemma CallsHold(c: Clocks, d: Clocks, t: nat, ph: Phase)
    requires t < |c.calls| && d.calls == c.calls[t := ph] && CallHolds(ph, d)
    requires forall p :: p in c.calls ==> CallHolds(p, c)
    requires d.reported == c.reported && d.heardAt >= c.heardAt && d.gapEndAt >= c.gapEndAt
    requires forall now: nat :: IsGapEnd(c.stored, now) ==> IsGapEnd(d.stored, now)
    ensures forall p :: p in d.calls ==> CallHolds(p, d)
  {
    hide IsGapEnd;
    forall p | p in d.calls ensures CallHolds(p, d) {
      if p != ph {
        var u :| 0 <= u < |d.calls| && d.calls[u] == p;
        assert c.calls[u] == p && p in c.calls;
        assert CallHolds(p, c);
      }
    }
  }

  /** A step that stores nothing. */
  lemma QuietStep(c: Clocks, t: nat)
    requires Inv(c) && t < |c.calls| && !(c.calls[t].Swapping? && c.heardAt == c.calls[t].prev)
    ensures Inv(Stepped(c, t))
  {
    var d := Stepped(c, t);
    var was := c.calls[t];
    assert was in c.calls && CallHolds(was, c);
    var ph := d.calls[t];
    assert d.calls == c.calls[t := ph];
    hide IsGapEnd, SomeReporting, SomeEnding;
    CallsHold(c, d, t, ph);
    forall now | now in d.reported ensures now <= d.heardAt || SomeReporting(d.calls, now) {
      OthersGoOn(c.calls, t, ph, now);
    }
    forall now: nat | IsGapEnd(d.stored, now) ensures now <= d.gapEndAt || SomeEnding(d.calls, now) {
      OthersGoOn(c.calls, t, ph, now);
    }
  }

  lemma GapsGrow(stored: seq<nat>, now: nat, at: nat)
    requires stored != []
    ensures IsGapEnd(stored, at) ==> IsGapEnd(stored + [now], at)
    ensures IsGapEnd(stored + [now], at) ==>
      IsGapEnd(stored, at) || (at == now && stored[|stored| - 1] != 0 && now - stored[|stored| - 1] > WHOLE_PATH_GAP)
    ensures stored[|stored| - 1] != 0 && now - stored[|stored| - 1] > WHOLE_PATH_GAP ==> IsGapEnd(stored + [now], now)
  {
    var next := stored + [now];
    assert forall k: nat :: k < |stored| ==> (EndsGap(next, k) <==> EndsGap(stored, k)) && next[k] == stored[k];
    assert EndsGap(next, |stored|) <==> stored[|stored| - 1] != 0 && now - stored[|stored| - 1] > WHOLE_PATH_GAP;
    if IsGapEnd(stored, at) {
      var k: nat :| EndsGap(stored, k) && stored[k] == at;
      assert EndsGap(next, k) && next[k] == at;
    }
    if IsGapEnd(next, at) {
      var k: nat :| EndsGap(next, k) && next[k] == at;
      assert k == |stored| || EndsGap(stored, k);
    }
  }

  lemma StoredMore(stored: seq<nat>, heardAt: nat, reported: seq<nat>, now: nat)
    requires StoredHolds(stored, heardAt, reported) && now in reported && now > heardAt
    ensures StoredHolds(stored + [now], now, reported)
  {
  }

  /** The swap that stores a time. */
  lemma StoreStep(c: Clocks, t: nat)
    requires Inv(c) && t < |c.calls| && c.calls[t].Swapping? && c.heardAt == c.calls[t].prev
    ensures Inv(Stepped(c, t))
  {
    var d := Stepped(c, t);
    var was := c.calls[t];
    assert was in c.calls && CallHolds(was, c);
    var ph := d.calls[t];
    assert d.calls == c.calls[t := ph];
    forall now: nat ensures IsGapEnd(c.stored, now) ==> IsGapEnd(d.stored, now) { GapsGrow(c.stored, was.now, now); }
    GapsGrow(c.stored, was.now, was.now);
    StoredMore(c.stored, c.heardAt, c.reported, was.now);
    hide IsGapEnd, SomeReporting, SomeEnding, StoredHolds;
    CallsHold(c, d, t, ph);
    forall now | now in d.reported ensures now <= d.heardAt || SomeReporting(d.calls, now) {
      OthersGoOn(c.calls, t, ph, now);
    }
    forall now: nat | IsGapEnd(d.stored, now) ensures now <= d.gapEndAt || SomeEnding(d.calls, now) {
      GapsGrow(c.stored, was.now, now);
      OthersGoOn(c.calls, t, ph, now);
    }
  }

  lemma CallStep(c: Clocks, now: nat)
    requires Inv(c)
    ensures Inv(Next(c, Call(now)))
  {
    var d := Next(c, Call(now));
    assert d.calls[|c.calls|] == Loading(now);
    forall at | at in d.reported ensures at <= d.heardAt || SomeReporting(d.calls, at) {
      if at == now {
        assert Reporting(d.calls[|c.calls|], now);
      } else if at > d.heardAt {
        var u: nat :| u < |c.calls| && Reporting(c.calls[u], at);
        assert d.calls[u] == c.calls[u];
      }
    }
    forall at: nat | IsGapEnd(d.stored, at) ensures at <= d.gapEndAt || SomeEnding(d.calls, at) {
      if at > d.gapEndAt {
        var u: nat :| u < |c.calls| && Ending(c.calls[u], at);
        assert d.calls[u] == c.calls[u];
      }
    }
    hide IsGapEnd;
    forall ph | ph in d.calls ensures CallHolds(ph, d) {
      if ph != Loading(now) { assert ph in c.calls; }
    }
  }

  lemma {:induction false} RunHolds(events: seq<Event>)
    ensures Inv(Run(events))
    decreases |events|
  {
    if events == [] {
      assert forall k: nat :: !EndsGap([0], k);
    } else {
      var prior, e := events[..|events| - 1], events[|events| - 1];
      RunHolds(prior);
      hide Inv;
      match e
      case Call(now) => CallStep(Run(prior), now);
      case Step(t) =>
        if t < |Run(prior).calls| {
          var ph := Run(prior).calls[t];
          if ph.Swapping? && Run(prior).heardAt == ph.prev { StoreStep(Run(prior), t); } else { QuietStep(Run(prior), t); }
        }
    }
  }

  // ---- The results -------------------------------------------------------------------

  ghost predicate Quiescent(c: Clocks) {
    forall ph :: ph in c.calls ==> ph == Finished
  }

  /**
    However the calls interleave, once all have returned the clock is the
    greatest time reported, and the end of the last gap the greatest stored time
    that came more than WHOLE_PATH_GAP after the one stored before it.
   */
  lemma QuietClocksAreExact(events: seq<Event>)
    requires Quiescent(Run(events))
    ensures var c := Run(events);
            && (forall now :: now in c.reported ==> now <= c.heardAt) && (c.heardAt == 0 || c.heardAt in c.reported)
            && (forall now: nat :: IsGapEnd(c.stored, now) ==> now <= c.gapEndAt)
            && (c.gapEndAt == 0 || IsGapEnd(c.stored, c.gapEndAt))
            && c.heard == |c.reported|
  {
    RunHolds(events);
    var c := Run(events);
    hide IsGapEnd;
    forall now: nat ensures !SomeReporting(c.calls, now) && !SomeEnding(c.calls, now) {
      assert forall t: nat :: t < |c.calls| ==> c.calls[t] in c.calls;
    }
  }

  /** At every moment of every run the stored times grow, so no gap is measured from a time set back. */
  lemma StoredTimesGrow(events: seq<Event>, e: Event)
    ensures var c, d := Run(events), Next(Run(events), e);
            && c.heardAt <= d.heardAt && c.gapEndAt <= d.gapEndAt && c.heard <= d.heard
            && StoredHolds(d.stored, d.heardAt, d.reported)
            && (d.stored == c.stored || d.stored == c.stored + [d.heardAt])
  {
    RunHolds(events);
    RunHolds(events + [e]);
    assert (events + [e])[..|events|] == events;
    NextGrows(Run(events), e);
    hide *;
  }

  lemma NextGrows(c: Clocks, e: Event)
    requires Inv(c) && Inv(Next(c, e))
    ensures var d := Next(c, e);
            && c.heardAt <= d.heardAt && c.gapEndAt <= d.gapEndAt && c.heard <= d.heard
            && StoredHolds(d.stored, d.heardAt, d.reported)
            && (d.stored == c.stored || d.stored == c.stored + [d.heardAt])
  {
    hide IsGapEnd, NoReportLost, NoGapLost, StoredHolds;
    if e.Step? && e.t < |c.calls| { assert c.calls[e.t] in c.calls; }
  }

  /** A compare-and-swap fails only to another call's progress: the clock it would have moved has grown since its load. */
  lemma FailedSwapIsProgress(events: seq<Event>, t: nat)
    requires t < |Run(events).calls|
    ensures var c := Run(events);
            && (c.calls[t].Swapping? && c.heardAt != c.calls[t].prev ==> c.calls[t].prev < c.heardAt)
            && (c.calls[t].GapSwapping? && c.gapEndAt != c.calls[t].cur ==> c.calls[t].cur < c.gapEndAt)
  {
    RunHolds(events);
    assert Run(events).calls[t] in Run(events).calls;
    hide IsGapEnd;
  }
}
