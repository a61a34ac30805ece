/**
  The keepalive loop of one stream (runKeepalive of pkg/proxy/turn-client.go) and
  the shared grid its timers hang on (keepalive_policy.go). Times are nanoseconds
  of the wall clock. What the loop does for a host's wake is its own probe
  (wake_probe.go), here only whether it could be sent.
 */
module Keepalive {
  import opened Wrappers

  const INTERVAL := 25_000_000_000
  const SPREAD := 2_000_000_000
  const SEND_RETRY := 5_000_000_000
  const ECHO_RETRY := 3_000_000_000
  const DEAD_AFTER := 90_000_000_000
  const FREEZE_SLACK := 20_000_000_000

  // ---- The grid --------------------------------------------------------------------

  function Truncated(now: nat): nat { now - now % INTERVAL }

  /** nextKeepaliveGrid */
  function NextGrid(now: nat, phase: nat): nat {
    var next := Truncated(now) + phase;
    if next <= now then next + INTERVAL else next
  }

  predicate OnGrid(t: nat, phase: nat) { t % INTERVAL == phase }

  /** The next grid point is the first one after now, so the points of a stream are INTERVAL apart. */
  lemma NextGridIsFirst(now: nat, phase: nat, g: nat)
    requires phase < INTERVAL
    ensures OnGrid(NextGrid(now, phase), phase) && now < NextGrid(now, phase) <= now + INTERVAL
    ensures OnGrid(g, phase) && g > now ==> NextGrid(now, phase) <= g
    ensures OnGrid(now, phase) ==> NextGrid(now, phase) == now + INTERVAL
  {
    var k, m := now / INTERVAL, g / INTERVAL;
    assert now == INTERVAL * k + now % INTERVAL && g == INTERVAL * m + g % INTERVAL;
  }

  /** keepalivePhase */
  function Phase(id: int, total: int): int {
    if total <= 1 || id <= 0 then 0 else SPREAD * (id % total) / total
  }

  /** The streams of one pool have phases of their own inside the window, in the order of their numbers. */
  lemma PhasesAreApart(i: nat, j: nat, total: nat)
    requires i < j < total <= SPREAD
    ensures 0 <= Phase(i, total) < Phase(j, total) < SPREAD
  {
    PhaseIs(i, total);
    PhaseIs(j, total);
    Scaled(i, total);
    Scaled(j, total);
    hide Phase;
    Ordered(i, j, total, SPREAD * i / total, SPREAD * j / total);
  }

  lemma PhaseIs(i: nat, total: nat)
    requires i < total
    ensures Phase(i, total) == SPREAD * i / total
  {
    if i == 0 {
      assert 0 / total == 0;
    } else {
      assert i % total == i;
    }
  }

  lemma Ordered(i: nat, j: nat, total: nat, p: int, q: int)
    requires i < j < total <= SPREAD && total * p <= SPREAD * i && SPREAD * j < total * q + total
    ensures p < q
  {
    InOrder(q, p, total);
  }

  /** A quotient stands within its divisor of what it divides. */
  lemma Scaled(i: nat, total: nat)
    requires i < total
    ensures total * (SPREAD * i / total) <= SPREAD * i < total * (SPREAD * i / total) + total
    ensures 0 <= SPREAD * i / total < SPREAD
  {
    var n := SPREAD * i;
    assert n == total * (n / total) + n % total;
    InOrder(SPREAD, n / total, total);
    InOrder(n / total + 1, 0, total);
  }

  lemma InOrder(a: int, b: int, total: nat)
    ensures a <= b ==> total * a <= total * b
  {
  }

  /** With more streams than the window has nanoseconds two of them share a phase. */
  lemma TooManyCollide(total: int)
    requires total > SPREAD
    ensures Phase(0, total) == Phase(1, total)
  {
    assert 1 % total == 1;
    assert SPREAD / total == 0;
  }

  // ---- One turn of the loop ------------------------------------------------------------

  /** Zero times are None. armedAt is when the keepalive to be repeated went out (echoFor). */
  datatype Timers = Timers(retryAt: Option<nat>, echoAt: Option<nat>, armedAt: nat, retriedAt: Option<nat>, tick: nat)

  const NO_TIMERS := Timers(None, None, 0, None, 0)

  datatype Reason = Grid | Retry | DeadCheck | EchoRetry

  function Earlier(at: Option<nat>, reason: Reason, due: (nat, Reason)): (nat, Reason) {
    if at.Some? && at.value < due.0 then (at.value, reason) else due
  }

  /** nextDeadline */
  function NextDeadline(k: Timers, phase: nat, now: nat, lastRx: nat): (nat, Reason) {
    Earlier(Some(lastRx + DEAD_AFTER), DeadCheck,
            Earlier(k.echoAt, EchoRetry, Earlier(k.retryAt, Retry, (NextGrid(now, phase), Grid))))
  }

  /**
    What comes of one wait: when it began and ended, whether a host wake or the
    stream's end cut it short, what had been received at either end, whether the
    send failed, and, after a freeze, how the thaw's probe went.
   */
  datatype Wait = Wait(start: nat, now: nat, woke: bool, ended: bool, rxAtStart: nat, rxAtEnd: nat, heard: nat,
                       failed: bool, thaw: Thaw)
  datatype Thaw = Alive | Gone | Unsent(at: nat) | Ended

  /** What the turn did. */
  datatype Outcome =
    | Closed
    | Dead
    | Woken
    | Nothing
    | Answered
    | Tried(reason: Reason)
    | Thawed(tried: bool)

  predicate Froze(w: Wait) { w.now - w.start > INTERVAL + FREEZE_SLACK }
  predicate RxDead(w: Wait) { w.now - w.rxAtEnd >= DEAD_AFTER }

  /** The timer alone ends a wait before its deadline is out. */
  predicate Fair(k: Timers, phase: nat, w: Wait) {
    w.start <= w.now && (!w.woke && !w.ended ==> NextDeadline(k, phase, w.start, w.rxAtStart).0 <= w.now)
  }

  function AfterThaw(k: Timers, w: Wait): (Timers, Outcome) {
    var quiet := k.(echoAt := None);
    if w.thaw == Ended then (quiet, Closed)
    else if w.failed then (quiet.(retryAt := Some(w.now + SEND_RETRY), tick := k.tick + 1), Thawed(true))
    else
      var sent := quiet.(retryAt := None, tick := k.tick + 1);
      match w.thaw
      case Gone => (sent, Dead)
      case Unsent(at) => (sent.(retryAt := Some(at + SEND_RETRY)), Thawed(true))
      case _ => (sent, Thawed(true))
  }

  /** A wait that outlasted the grid point serves the grid, whatever it was to wake for. */
  function Served(k: Timers, phase: nat, w: Wait): Reason {
    if w.now >= NextGrid(w.start, phase) then Grid else NextDeadline(k, phase, w.start, w.rxAtStart).1
  }

  function AfterRepeat(k: Timers, w: Wait): (Timers, Outcome) {
    var quiet := k.(echoAt := None, retriedAt := None);
    if w.heard >= k.armedAt then (quiet, Answered)
    else if w.failed then (quiet.(retryAt := Some(w.now + SEND_RETRY)), Tried(EchoRetry))
    else (quiet.(tick := k.tick + 1, retriedAt := Some(w.now)), Tried(EchoRetry))
  }

  function AfterSend(k: Timers, w: Wait, reason: Reason): (Timers, Outcome) {
    var next := k.(retriedAt := None, tick := k.tick + 1);
    if w.failed then (next.(retryAt := Some(w.now + SEND_RETRY), echoAt := None), Tried(reason))
    else (next.(retryAt := None, armedAt := w.now, echoAt := Some(w.now + ECHO_RETRY)), Tried(reason))
  }

  function Turn(k: Timers, phase: nat, w: Wait): (Timers, Outcome) {
    if w.ended then (k, Closed)
    else if Froze(w) then AfterThaw(k, w)
    else if w.woke then (k, Woken)
    else if RxDead(w) then (k, Dead)
    else
      match Served(k, phase, w)
      case DeadCheck => (k, Nothing)
      case EchoRetry => AfterRepeat(k, w)
      case reason => AfterSend(k, w, reason)
  }

  /** The earliest of the four timers ends the wait, and the reason is that timer's. */
  lemma DeadlineIsLeast(k: Timers, phase: nat, now: nat, lastRx: nat)
    requires phase < INTERVAL
    ensures var due := NextDeadline(k, phase, now, lastRx).0;
            && due <= NextGrid(now, phase) <= now + INTERVAL && due <= lastRx + DEAD_AFTER
            && (k.retryAt.Some? ==> due <= k.retryAt.value) && (k.echoAt.Some? ==> due <= k.echoAt.value)
            && (due == NextGrid(now, phase) || due == lastRx + DEAD_AFTER || k.retryAt == Some(due) || k.echoAt == Some(due))
  {
    NextGridIsFirst(now, phase, now);
  }

  /**
    No grid point that falls inside a wait goes unserved: unless a host wake, a
    freeze, the stream's end or the dead-stream detector took the turn, the
    turn tries a keepalive for it.
   */
  lemma GridPointIsServed(k: Timers, phase: nat, w: Wait, g: nat)
    requires phase < INTERVAL && OnGrid(g, phase) && w.start < g <= w.now
    ensures Turn(k, phase, w).1 == Tried(Grid) <==> !w.ended && !Froze(w) && !w.woke && !RxDead(w)
  {
    NextGridIsFirst(w.start, phase, g);
  }

  // ---- Whole runs ---------------------------------------------------------------------------

  datatype Event = Waits(w: Wait) | WakeProbe(unsent: bool, at: nat)

  function Step(k: Timers, phase: nat, e: Event): (Timers, Outcome) {
    match e
    case Waits(w) => Turn(k, phase, w)
    case WakeProbe(unsent, at) => (if unsent then k.(retryAt := Some(at + SEND_RETRY)) else k, Nothing)
  }

  function After(phase: nat, es: seq<Event>): Timers
    decreases |es|
  {
    if es == [] then NO_TIMERS else Step(After(phase, es[..|es| - 1]), phase, es[|es| - 1]).0
  }

  function OutcomeAt(phase: nat, es: seq<Event>, i: nat): Outcome
    requires i < |es|
  {
    Step(After(phase, es[..i]), phase, es[i]).1
  }

  /** The i-th event armed a repeat: a keepalive of the grid's or a retry's went out. */
  predicate Arms(phase: nat, es: seq<Event>, i: nat)
    requires i < |es|
  {
    es[i].Waits? && !es[i].w.failed && OutcomeAt(phase, es, i).Tried? && OutcomeAt(phase, es, i).reason != EchoRetry
  }

  predicate Repeats(phase: nat, es: seq<Event>, i: nat)
    requires i < |es|
  {
    OutcomeAt(phase, es, i) == Tried(EchoRetry)
  }

  /** While a repeat is pending, the keepalive it is for went out at armedAt, and has not been repeated since. */
  ghost predicate PendingHolds(phase: nat, es: seq<Event>) {
    After(phase, es).echoAt.Some? ==> exists i: nat :: ArmedAndNotRepeated(phase, es, i)
  }

  ghost predicate ArmedAndNotRepeated(phase: nat, es: seq<Event>, i: nat) {
    && i < |es| && Arms(phase, es, i) && es[i].w.now == After(phase, es).armedAt
    && forall j: nat :: i < j < |es| ==> !Repeats(phase, es, j) && !Arms(phase, es, j)
  }

  lemma OutcomeBefore(phase: nat, es: seq<Event>, i: nat)
    requires es != [] && i < |es| - 1
    ensures OutcomeAt(phase, es[..|es| - 1], i) == OutcomeAt(phase, es, i)
    ensures Arms(phase, es[..|es| - 1], i) == Arms(phase, es, i) && Repeats(phase, es[..|es| - 1], i) == Repeats(phase, es, i)
  {
    assert es[..|es| - 1][..i] == es[..i];
  }

  lemma {:induction false} PendingIs(phase: nat, es: seq<Event>)
    ensures PendingHolds(phase, es)
    decreases |es|
  {
    if es != [] && After(phase, es).echoAt.Some? {
      var prior, last := es[..|es| - 1], |es| - 1;
      PendingIs(phase, prior);
      assert es[..last] == prior;
      forall j: nat | j < last ensures Arms(phase, prior, j) == Arms(phase, es, j) && Repeats(phase, prior, j) == Repeats(phase, es, j) {
        OutcomeBefore(phase, es, j);
      }
      PendingStep(phase, es);
      if Arms(phase, es, last) {
        assert ArmedAndNotRepeated(phase, es, last);
      } else {
        var i: nat :| ArmedAndNotRepeated(phase, prior, i);
        hide Arms, Repeats, After;
        assert ArmedAndNotRepeated(phase, es, i);
      }
    }
  }

  /** A repeat pending after an event was armed by it, or pending before it, and not repeated by it. */
  lemma PendingStep(phase: nat, es: seq<Event>)
    requires es != [] && After(phase, es).echoAt.Some?
    ensures var k, next, last := After(phase, es[..|es| - 1]), After(phase, es), |es| - 1;
            if Arms(phase, es, last) then next.armedAt == es[last].w.now
            else k.echoAt.Some? && next.armedAt == k.armedAt && !Repeats(phase, es, last)
  {
    assert es[..|es| - 1] == es[..|es| - 1];
  }

  /**
    A keepalive goes out again only for one that did go out, only if nothing was
    heard since it did, and only once: none of the events since armed another or
    repeated it.
   */
  lemma RepeatedOnce(phase: nat, es: seq<Event>, r: nat) returns (i: nat)
    requires r < |es| && Repeats(phase, es, r)
    ensures i < r && Arms(phase, es, i) && es[r].Waits? && es[r].w.heard < es[i].w.now
    ensures forall j: nat :: i < j < r ==> !Repeats(phase, es, j) && !Arms(phase, es, j)
  {
    var prior := es[..r];
    var k := After(phase, prior);
    PendingIs(phase, prior);
    assert k.echoAt.Some?;
    i :| ArmedAndNotRepeated(phase, prior, i);
    forall j: nat | j < r ensures Arms(phase, prior, j) == Arms(phase, es, j) && Repeats(phase, prior, j) == Repeats(phase, es, j) {
      assert prior[..j] == es[..j];
    }
  }

  lemma {:induction false} EchoIsDue(phase: nat, es: seq<Event>)
    ensures var k := After(phase, es); k.echoAt.Some? ==> k.echoAt.value == k.armedAt + ECHO_RETRY
    decreases |es|
  {
    if es != [] { EchoIsDue(phase, es[..|es| - 1]); }
  }

  /** And no sooner than ECHO_RETRY after it. */
  lemma RepeatIsDue(phase: nat, es: seq<Event>, r: nat)
    requires r < |es| && Repeats(phase, es, r) && es[r].Waits? && Fair(After(phase, es[..r]), phase, es[r].w)
    ensures es[r].w.now >= After(phase, es[..r]).armedAt + ECHO_RETRY
  {
    EchoIsDue(phase, es[..r]);
    var k, w := After(phase, es[..r]), es[r].w;
    assert Served(k, phase, w) == EchoRetry;
    assert NextDeadline(k, phase, w.start, w.rxAtStart).1 == EchoRetry;
    hide After;
  }

  // ---- What a send leads to ------------------------------------------------------------------

  /** When the i-th event's send failed, or could not be made. */
  function FailedAt(phase: nat, es: seq<Event>, i: nat): Option<nat>
    requires i < |es|
  {
    var out := OutcomeAt(phase, es, i);
    match es[i]
    case WakeProbe(unsent, at) => if unsent then Some(at) else None
    case Waits(w) =>
      if out.Tried? then (if w.failed then Some(w.now) else None)
      else if !out.Thawed? then None
      else if w.failed then Some(w.now)
      else if w.thaw.Unsent? then Some(w.thaw.at)
      else None
  }

  function DeadlineOf(k: Timers, phase: nat, now: nat, rx: nat): nat { NextDeadline(k, phase, now, rx).0 }

  /** Whenever a wait begins, and whatever was received, it is to end by at. */
  ghost predicate DueBy(k: Timers, phase: nat, at: nat) {
    forall now, rx :: DeadlineOf(k, phase, now, rx) <= at
  }

  /** The wait ran its time: no wake, freeze or end, and the dead-stream check was not due in it. */
  predicate Undisturbed(k: Timers, phase: nat, w: Wait) {
    && Fair(k, phase, w) && !w.woke && !w.ended && !Froze(w) && !RxDead(w)
    && w.rxAtStart + DEAD_AFTER > NextGrid(w.start, phase)
  }

  /**
    After a keepalive went out no wait is due later than 3 s from then, so that
    it may be repeated, and after one failed none later than 5 s from then.
   */
  lemma SendIsFollowedUp(phase: nat, es: seq<Event>, i: nat)
    requires i < |es|
    ensures Arms(phase, es, i) ==> DueBy(After(phase, es[..i + 1]), phase, es[i].w.now + 3_000_000_000)
    ensures FailedAt(phase, es, i).Some? ==>
      DueBy(After(phase, es[..i + 1]), phase, FailedAt(phase, es, i).value + 5_000_000_000)
  {
    assert es[..i + 1][..i] == es[..i];
    hide NextGrid;
  }

  /**
    A keepalive that went out is repeated 3 s later if nothing was heard since:
    the wait that follows it, if it runs its time short of the next grid point,
    ends 3 s after the send or later, with the repeat, or with none since a relay
    was heard.
   */
  lemma SentArmsRepeat(phase: nat, es: seq<Event>, i: nat)
    requires phase < INTERVAL && i + 1 < |es| && Arms(phase, es, i) && es[i + 1].Waits?
    requires var w := es[i + 1].w;
             Undisturbed(After(phase, es[..i + 1]), phase, w) && w.now < NextGrid(w.start, phase)
    ensures var t, w := es[i].w.now, es[i + 1].w;
            && w.now >= t + 3_000_000_000
            && OutcomeAt(phase, es, i + 1) == if w.heard < t then Tried(EchoRetry) else Answered
  {
    assert es[..i + 1][..i] == es[..i];
    NextGridIsFirst(es[i + 1].w.start, phase, es[i + 1].w.start);
    hide NextGrid;
  }

  /**
    A send that failed is tried again 5 s later, or at the grid point if that is
    sooner: the wait that follows, if it runs its time, ends with an attempt,
    unless a repeat was still due before it.
   */
  lemma FailedIsRetried(phase: nat, es: seq<Event>, i: nat)
    requires phase < INTERVAL && i + 1 < |es| && FailedAt(phase, es, i).Some? && es[i + 1].Waits?
    requires Undisturbed(After(phase, es[..i + 1]), phase, es[i + 1].w)
    ensures var t, w, out := FailedAt(phase, es, i).value, es[i + 1].w, OutcomeAt(phase, es, i + 1);
            && (out == Answered || out.Tried?)
            && (w.now >= NextGrid(w.start, phase) ==> out == Tried(Grid))
            && (out == Tried(Retry) ==> w.now >= t + 5_000_000_000)
            && (After(phase, es[..i + 1]).echoAt.None? && w.now < NextGrid(w.start, phase) ==> out == Tried(Retry))
    ensures es[i].Waits? ==> After(phase, es[..i + 1]).echoAt.None?
  {
    assert es[..i + 1][..i] == es[..i];
    NextGridIsFirst(es[i + 1].w.start, phase, es[i + 1].w.start);
    hide NextGrid;
  }

  /** What became of the stream is told by the wait alone: the order in which its ends are looked at. */
  lemma DeadExactly(k: Timers, phase: nat, w: Wait)
    ensures Turn(k, phase, w).1 == Dead <==>
      !w.ended && (if w.now - w.start > INTERVAL + FREEZE_SLACK then !w.failed && w.thaw == Gone
                   else !w.woke && w.now - w.rxAtEnd >= DEAD_AFTER)
    ensures Turn(k, phase, w).1 == Closed <==> w.ended || (w.now - w.start > INTERVAL + FREEZE_SLACK && w.thaw == Ended)
    ensures Turn(k, phase, w).1.Thawed? <==>
      !w.ended && w.now - w.start > INTERVAL + FREEZE_SLACK && w.thaw != Ended && (w.failed || w.thaw != Gone)
  {
  }

  // ---- The loop as it runs -----------------------------------------------------------------------

  class KeepaliveLoop {
    const phase: nat
    var retryAt: Option<nat>
    var echoAt: Option<nat>
    var echoFor: nat
    var retriedAt: Option<nat>
    var tick: nat

    function Now(): Timers
      reads this
    {
      Timers(retryAt, echoAt, echoFor, retriedAt, tick)
    }

    constructor (phase: nat)
      ensures this.phase == phase && Now() == NO_TIMERS
    {
      this.phase := phase;
      retryAt, echoAt, echoFor, retriedAt, tick := None, None, 0, None, 0;
    }

    method NextDeadlineOf(now: nat, lastRx: nat) returns (next: nat, reason: Reason)
      ensures (next, reason) == NextDeadline(Now(), phase, now, lastRx)
    {
      next, reason := NextGrid(now, phase), Grid;
      if retryAt.Some? && retryAt.value < next { next, reason := retryAt.value, Retry; }
      if echoAt.Some? && echoAt.value < next { next, reason := echoAt.value, EchoRetry; }
      if lastRx + DEAD_AFTER < next { next, reason := lastRx + DEAD_AFTER, DeadCheck; }
    }

    method Thawing(w: Wait) returns (out: Outcome)
      modifies this
      ensures (Now(), out) == AfterThaw(old(Now()), w)
    {
      echoAt := None;
      if w.thaw == Thaw.Ended { return Closed; }
      tick := tick + 1;
      if w.failed {
        retryAt := Some(w.now + SEND_RETRY);
        return Thawed(true);
      }
      retryAt := None;
      if w.thaw.Gone? { return Dead; }
      if w.thaw.Unsent? { retryAt := Some(w.thaw.at + SEND_RETRY); }
      out := Thawed(true);
    }

    /** One wait and what the loop does after it. */
    method TakeTurn(w: Wait) returns (out: Outcome)
      modifies this
      ensures (Now(), out) == Turn(old(Now()), phase, w)
    {
      var deadline, wakeReason := NextDeadlineOf(w.start, w.rxAtStart);
      var gridAt := NextGrid(w.start, phase);
      if w.ended { return Closed; }
      if w.now - w.start > INTERVAL + FREEZE_SLACK {
        out := Thawing(w);
        return;
      }
      if w.woke { return Woken; }
      if w.now - w.rxAtEnd >= DEAD_AFTER { return Dead; }
      if wakeReason != Grid && w.now >= gridAt {
        wakeReason := Grid;
        echoAt := None;
      }
      if wakeReason == DeadCheck { return Nothing; }
      retriedAt := None;
      if wakeReason == EchoRetry {
        echoAt := None;
        if w.heard >= echoFor { return Answered; }
        if w.failed {
          retryAt := Some(w.now + SEND_RETRY);
          return Tried(EchoRetry);
        }
        tick := tick + 1;
        retriedAt := Some(w.now);
        return Tried(EchoRetry);
      }
      tick := tick + 1;
      if w.failed {
        retryAt, echoAt := Some(w.now + SEND_RETRY), None;
      } else {
        retryAt, echoFor, echoAt := None, w.now, Some(w.now + ECHO_RETRY);
      }
      out := Tried(wakeReason);
    }
  }

  // ---- The WireGuard keepalive of the shared grid ---------------------------------------------------

  /** wireGuardKeepaliveSender while it is installed: sent is when its keepalives went out. */
  class SharedSender {
    var lastGrid: int
    ghost var sent: seq<nat>

    constructor ()
      ensures (lastGrid, sent) == Sends([])
    {
      lastGrid, sent := 0, [];
    }

    /** At most one send for the bucket that holds now, and one if its last was another bucket's. */
    method SendOnSharedGrid(now: nat) returns (send: bool)
      modifies this
      ensures send == (Truncated(now) != old(lastGrid)) && lastGrid == Truncated(now)
      ensures sent == old(sent) + if send then [now] else []
      ensures (lastGrid, sent) == SendsMore((old(lastGrid), old(sent)), now)
    {
      var grid := Truncated(now);
      if lastGrid == grid { return false; }
      lastGrid, sent := grid, sent + [now];
      send := true;
    }
  }

  /** The bucket the sender last sent in, and the times of its sends, once it is asked again at now. */
  function SendsMore(prior: (int, seq<nat>), now: nat): (int, seq<nat>) {
    if Truncated(now) == prior.0 then prior else (Truncated(now), prior.1 + [now])
  }

  /** The same of a sender asked at times. */
  function Sends(times: seq<nat>): (int, seq<nat>)
    decreases |times|
  {
    if times == [] then (0, []) else SendsMore(Sends(times[..|times| - 1]), times[|times| - 1])
  }

  /** The buckets of the sends, one after another. */
  ghost predicate Ascending(sent: seq<nat>) {
    forall i, j :: 0 <= i < j < |sent| ==> Truncated(sent[i]) < Truncated(sent[j])
  }

  lemma AscendsMore(sent: seq<nat>, now: nat)
    requires Ascending(sent) && (sent == [] || Truncated(sent[|sent| - 1]) < Truncated(now))
    ensures Ascending(sent + [now])
  {
    hide Truncated;
    forall i | 0 <= i < |sent| ensures Truncated(sent[i]) < Truncated(now) {
      if i < |sent| - 1 { assert Truncated(sent[i]) < Truncated(sent[|sent| - 1]); }
    }
  }

  /** On a clock that does not go back, no two keepalives of the shared grid go out in one bucket. */
  lemma {:induction false} OneSendABucket(times: seq<nat>)
    requires forall i :: 0 < i < |times| ==> times[i - 1] <= times[i]
    ensures Ascending(Sends(times).1)
    ensures var s := Sends(times);
            if s.1 == [] then s.0 == 0 else s.0 == Truncated(s.1[|s.1| - 1]) && s.1[|s.1| - 1] <= times[|times| - 1]
    decreases |times|
  {
    if times != [] {
      var prior, now := times[..|times| - 1], times[|times| - 1];
      OneSendABucket(prior);
      var s := Sends(prior);
      if s.1 != [] { TruncatedGrows(s.1[|s.1| - 1], now); }
      hide Ascending, Truncated;
      if Truncated(now) != s.0 { AscendsMore(s.1, now); }
    }
  }

  /** And none goes without one: of each time the sender was asked, one went out in its bucket. */
  lemma {:induction false} EveryBucketIsServed(times: seq<nat>, i: nat)
    requires i < |times| && times[i] >= INTERVAL && forall j :: 0 < j < |times| ==> times[j - 1] <= times[j]
    ensures exists k :: 0 <= k < |Sends(times).1| && Truncated(Sends(times).1[k]) == Truncated(times[i])
    decreases |times|
  {
    var prior, now := times[..|times| - 1], times[|times| - 1];
    var s, t := Sends(prior).1, Sends(times).1;
    if i < |prior| {
      EveryBucketIsServed(prior, i);
      var k :| 0 <= k < |s| && Truncated(s[k]) == Truncated(times[i]);
      assert t[k] == s[k];
    } else {
      OneSendABucket(prior);
      assert t[|t| - 1] == if Truncated(now) == Sends(prior).0 then s[|s| - 1] else now;
    }
  }

  lemma TruncatedGrows(a: nat, b: nat)
    requires a <= b
    ensures Truncated(a) <= Truncated(b)
  {
  }
}
