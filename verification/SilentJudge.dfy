/**
  The judge of silence under load as it is kept (pkg/proxy/silent_under_load.go):
  its rows, its n by n matrix of what the siblings had heard, its takes, and the
  reporter's clock it knows a freeze by while idle.
 */
module SilentJudge {
  import opened Wrappers
  import opened Silence
  import opened Streams

  const TICK := 500_000_000
  const FREEZE := 1_000_000_000
  const SECOND := 1_000_000_000

  // ---- The reporter's clock ------------------------------------------------------

  /** reporterClock: the latest turn, and the latest late one with the turn before it. */
  datatype Clock = Clock(turn: int, late: Option<(int, int)>)

  /** reporterTurn */
  function Turned(c: Clock, now: int): Clock {
    Clock(now, if now - c.turn > SECOND + FREEZE then Some((now, c.turn)) else c.late)
  }

  /** reporterFroze: where a gap of the clock began that is new to the judge, if there is one. */
  function NewGap(c: Clock, last: int, frozeGap: Option<int>, now: int): Option<int> {
    if c.late.Some? && c.late.value.0 > last && Some(c.late.value.1) != frozeGap then Some(c.late.value.1)
    else if now - c.turn > SECOND + FREEZE && Some(c.turn) != frozeGap then Some(c.turn)
    else None
  }

  /** The clock, the judge's last turn, the gap it last took, and all it ever took. */
  datatype Watch = Watch(c: Clock, last: int, frozeGap: Option<int>, taken: seq<int>)

  datatype Beat = Reports(now: int) | Judges(now: int, idle: bool)

  function Beats(w: Watch, b: Beat): Watch {
    match b
    case Reports(now) => w.(c := Turned(w.c, now))
    case Judges(now, idle) =>
      var gap := if idle then NewGap(w.c, w.last, w.frozeGap, now) else None;
      var v := w.(last := now);
      if gap.None? then v else v.(frozeGap := gap, taken := w.taken + [gap.value])
  }

  function Watched(start: int, beats: seq<Beat>): Watch
    decreases |beats|
  {
    if beats == [] then Watch(Clock(start, None), start, None, [])
    else Beats(Watched(start, beats[..|beats| - 1]), beats[|beats| - 1])
  }

  function LatestAt(start: int, beats: seq<Beat>): int {
    if beats == [] then start else beats[|beats| - 1].now
  }

  ghost predicate InTimeOrder(start: int, beats: seq<Beat>) {
    forall i :: 0 <= i < |beats| ==> LatestAt(start, beats[..i]) <= beats[i].now
  }

  ghost predicate Increasing(s: seq<int>) {
    forall i, j :: 0 <= i < j < |s| ==> s[i] < s[j]
  }

  /** The gap last taken began at a turn of the reporter's; nothing newer than it was taken. */
  ghost predicate WatchHolds(w: Watch) {
    && Increasing(w.taken)
    && (w.frozeGap.None? <==> w.taken == []) && (w.taken != [] ==> w.frozeGap == Some(w.taken[|w.taken| - 1]))
    && (w.c.late.Some? ==> w.c.late.value.1 < w.c.late.value.0 <= w.c.turn)
    && (w.frozeGap.Some? ==> w.frozeGap.value <= w.c.turn && w.frozeGap.value < w.last)
    && (w.frozeGap.Some? && w.c.late.Some? ==>
          w.frozeGap.value <= w.c.late.value.1 || w.c.late.value.0 <= w.frozeGap.value)
  }

  lemma BeatHolds(w: Watch, b: Beat)
    requires WatchHolds(w) && w.c.turn <= b.now && w.last <= b.now
    ensures WatchHolds(Beats(w, b))
  {
  }

  /** A gap is taken for a freeze once, however often and whichever way it is seen. */
  lemma {:induction false} GapsAreTakenOnce(start: int, beats: seq<Beat>)
    requires InTimeOrder(start, beats)
    ensures WatchHolds(Watched(start, beats)) && Increasing(Watched(start, beats).taken)
    ensures Watched(start, beats).c.turn <= LatestAt(start, beats) && Watched(start, beats).last <= LatestAt(start, beats)
    decreases |beats|
  {
    if beats != [] {
      var prior, b := beats[..|beats| - 1], beats[|beats| - 1];
      assert forall i :: 0 <= i < |prior| ==> prior[i] == beats[i] && prior[..i] == beats[..i];
      assert beats[..|prior|] == prior;
      GapsAreTakenOnce(start, prior);
      BeatHolds(Watched(start, prior), b);
    }
  }

  /** The reporter's turns in beats, the first at the start. */
  function ReportTimes(start: int, beats: seq<Beat>): seq<int>
    decreases |beats|
  {
    if beats == [] then [start]
    else ReportTimes(start, beats[..|beats| - 1]) + if beats[|beats| - 1].Reports? then [beats[|beats| - 1].now] else []
  }

  /** When the judge took its last turn. */
  function JudgedAt(start: int, beats: seq<Beat>): int
    decreases |beats|
  {
    if beats == [] then start
    else if beats[|beats| - 1].Judges? then beats[|beats| - 1].now
    else JudgedAt(start, beats[..|beats| - 1])
  }

  /** The reporter's k-th turn is its latest late one: more than 2 s after the one before. */
  ghost predicate LatestLate(times: seq<int>, k: nat) {
    && 0 < k < |times| && times[k] - times[k - 1] > 2_000_000_000
    && forall m :: k < m < |times| ==> times[m] - times[m - 1] <= 2_000_000_000
  }

  /** The clock is the reporter's latest turn, and its latest late one with the turn before it. */
  ghost predicate ClockIs(c: Clock, times: seq<int>) {
    && times != [] && c.turn == times[|times| - 1]
    && (c.late.Some? ==> exists k: nat :: LatestLate(times, k) && c.late.value == (times[k], times[k - 1]))
    && (c.late.None? ==> forall k: nat :: !LatestLate(times, k))
  }

  lemma LateMore(times: seq<int>, now: int)
    requires times != []
    ensures now - times[|times| - 1] > 2_000_000_000 ==> LatestLate(times + [now], |times|)
    ensures now - times[|times| - 1] <= 2_000_000_000 ==>
      forall k: nat :: LatestLate(times + [now], k) <==> LatestLate(times, k)
  {
    var more := times + [now];
    assert forall m :: 0 <= m < |times| ==> more[m] == times[m];
    if now - times[|times| - 1] <= 2_000_000_000 {
      forall k: nat ensures LatestLate(more, k) <==> LatestLate(times, k) {
        if LatestLate(more, k) {
          assert more[|times|] - more[|times| - 1] <= 2_000_000_000;
          forall m | k < m < |times| ensures times[m] - times[m - 1] <= 2_000_000_000 {
            assert more[m] - more[m - 1] <= 2_000_000_000;
          }
        }
      }
    }
  }

  lemma ClockTurns(c: Clock, times: seq<int>, now: int)
    requires ClockIs(c, times)
    ensures ClockIs(Turned(c, now), times + [now])
  {
    var more := times + [now];
    LateMore(times, now);
    assert more[|times|] == now && more[|times| - 1] == times[|times| - 1];
    if now - c.turn <= 2_000_000_000 && c.late.Some? {
      var k: nat :| LatestLate(times, k) && c.late.value == (times[k], times[k - 1]);
      assert LatestLate(more, k) && more[k] == times[k] && more[k - 1] == times[k - 1];
    }
  }

  lemma {:induction false} WatchIs(start: int, beats: seq<Beat>)
    ensures ClockIs(Watched(start, beats).c, ReportTimes(start, beats))
    ensures Watched(start, beats).last == JudgedAt(start, beats)
    decreases |beats|
  {
    if beats != [] {
      var prior, b := beats[..|beats| - 1], beats[|beats| - 1];
      WatchIs(start, prior);
      assert Watched(start, beats).last == JudgedAt(start, beats);
      var c, times := Watched(start, prior).c, ReportTimes(start, prior);
      assert ReportTimes(start, beats) == if b.Reports? then times + [b.now] else times;
      assert Watched(start, beats).c == if b.Reports? then Turned(c, b.now) else c;
      hide Watched, ReportTimes, JudgedAt, ClockIs;
      if b.Reports? { ClockTurns(c, times, b.now); }
    }
  }

  /** The latest late turn of the reporter's, if any, was not after judged. */
  ghost predicate NoneLateSince(times: seq<int>, judged: int) {
    forall k: nat :: LatestLate(times, k) ==> times[k] <= judged
  }

  lemma TakesOrTook(w: Watch, now: int, gap: int)
    requires WatchHolds(w)
    requires NewGap(w.c, w.last, w.frozeGap, now) == Some(gap) || w.frozeGap == Some(gap)
    ensures gap in Beats(w, Judges(now, true)).taken
  {
    var v := Beats(w, Judges(now, true));
    if NewGap(w.c, w.last, w.frozeGap, now) == Some(gap) {
      assert v.taken[|v.taken| - 1] == gap;
    } else if w.taken != [] {
      assert v.taken[|w.taken| - 1] == gap;
    }
  }

  /**
    No freeze in sight is missed: a turn of the idle judge has taken the gap
    before the reporter's latest late turn, if that came since the judge's last;
    and with none late since, the gap that goes on if the reporter is 2 s overdue.
   */
  lemma NoGapIsMissed(start: int, beats: seq<Beat>, now: int, k: nat)
    requires InTimeOrder(start, beats + [Judges(now, true)])
    ensures var times, taken := ReportTimes(start, beats), Watched(start, beats + [Judges(now, true)]).taken;
            && times != []
            && (LatestLate(times, k) && times[k] > JudgedAt(start, beats) ==> times[k - 1] in taken)
            && (NoneLateSince(times, JudgedAt(start, beats)) && now - times[|times| - 1] > 2_000_000_000 ==>
                  times[|times| - 1] in taken)
  {
    var all := beats + [Judges(now, true)];
    var w, times := Watched(start, beats), ReportTimes(start, beats);
    assert all[..|beats|] == beats && Watched(start, all) == Beats(w, Judges(now, true));
    TimeOrderBefore(start, beats, Judges(now, true));
    WatchIs(start, beats);
    hide Watched, ReportTimes, JudgedAt, InTimeOrder, LatestLate, WatchHolds, Beats;
    GapsAreTakenOnce(start, beats);
    if LatestLate(times, k) && times[k] > JudgedAt(start, beats) {
      LateIsOne(times, w.c, k);
      TakesOrTook(w, now, times[k - 1]);
    }
    if NoneLateSince(times, JudgedAt(start, beats)) && now - times[|times| - 1] > 2_000_000_000 {
      TakesOrTook(w, now, times[|times| - 1]);
    }
  }

  lemma TimeOrderBefore(start: int, beats: seq<Beat>, b: Beat)
    requires InTimeOrder(start, beats + [b])
    ensures InTimeOrder(start, beats)
  {
    var all := beats + [b];
    assert forall i :: 0 <= i < |beats| ==> all[..i] == beats[..i] && all[i] == beats[i];
  }

  lemma LateIsOne(times: seq<int>, c: Clock, k: nat)
    requires ClockIs(c, times) && LatestLate(times, k)
    ensures c.late == Some((times[k], times[k - 1]))
  {
    var m: nat :| LatestLate(times, m) && c.late.value == (times[m], times[m - 1]);
  }

  // ---- The judge -------------------------------------------------------------------

  /** What a turn reads of a stream: nothing unless it is ready and in a session. */
  function ObsOf(s: Stream): Option<Obs>
    reads s, if s.activity == null then {} else {s.activity}
  {
    if !s.ready || s.activity == null then None
    else
      var a: StreamActivity := s.activity;
      Some(Obs(a, a.lastHeard, a.rxCount, a.FrozeSinceHeard(), a.silentUnderLoad))
  }

  /** The turn at now comes after a freeze: late for its tick, or by the reporter's clock if it was idle. */
  predicate Frozen(clock: Option<Clock>, idle: bool, last: Option<int>, frozeGap: Option<int>, now: int) {
    && last.Some?
    && if idle then clock.Some? && NewGap(clock.value, last.value, frozeGap, now).Some?
       else now - last.value > TICK + FREEZE
  }

  /** The gap last taken after a turn at now. */
  function GapAfter(clock: Option<Clock>, idle: bool, last: Option<int>, frozeGap: Option<int>, now: int): Option<int> {
    if idle && Frozen(clock, idle, last, frozeGap, now) then NewGap(clock.value, last.value, frozeGap, now) else frozeGap
  }

  /** The judge keeps of the watch w its own last turn and the gap it last took. */
  predicate KeptAs(w: Watch, last: Option<int>, frozeGap: Option<int>) { last == Some(w.last) && frozeGap == w.frozeGap }

  /** A turn is a beat of the watch: it takes the gap the watch takes, for a freeze, or none. */
  lemma TurnIsABeat(w: Watch, idle: bool, now: int)
    ensures var v := Beats(w, Judges(now, idle));
            && KeptAs(v, Some(now), GapAfter(Some(w.c), idle, Some(w.last), w.frozeGap, now))
            && (idle && Frozen(Some(w.c), idle, Some(w.last), w.frozeGap, now) <==> v.taken != w.taken)
            && (!idle ==> (Frozen(Some(w.c), idle, Some(w.last), w.frozeGap, now) <==> now - w.last > 1_500_000_000))
  {
    var v := Beats(w, Judges(now, idle));
    assert |v.taken| == |w.taken| + if idle && NewGap(w.c, w.last, w.frozeGap, now).Some? then 1 else 0;
  }

  /** verdicts and back are the streams, of the first m, the turn convicts and reports heard again. */
  ghost predicate Reported(verdicts: seq<nat>, back: seq<nat>, j: Judge, snap: Snap, now: int, froze: bool, m: nat)
    requires Shaped(j, |snap|) && m <= |snap|
  {
    && (forall i: nat :: i in verdicts <==> i < m && Convicts(j, snap, now, froze, i))
    && (forall i: nat :: i in back <==> i < m && Returns(j, snap, i))
  }

  lemma SameReports(verdicts: seq<nat>, back: seq<nat>, j: Judge, v: Judge, snap: Snap, now: int, froze: bool)
    requires Shaped(j, |snap|) && Shaped(v, |snap|) && j.rows == v.rows
    ensures Reported(verdicts, back, j, snap, now, froze, |snap|) == Reported(verdicts, back, v, snap, now, froze, |snap|)
  {
  }

  class SilentUnderLoadJudge {
    const n: nat
    /** Whose silence, and since when, the row of a stream stands for. */
    const rowOf: array<Option<(StreamActivity, int)>>
    const seen: array2<Option<Take>>
    const obs: array<Option<Obs>>
    const base: array<Option<Take>>
    const prior: array<Option<Take>>
    var idle: bool
    var basedAt: Option<int>
    var last: Option<int>
    var frozeGap: Option<int>

    ghost predicate Valid() {
      && rowOf.Length == obs.Length == base.Length == prior.Length == n && seen.Length0 == seen.Length1 == n
      && base != prior
    }

    ghost function SeenBy(i: nat): (s: seq<Option<Take>>)
      requires Valid() && i < n
      reads seen
      ensures |s| == n && forall k :: 0 <= k < n ==> s[k] == seen[i, k]
    {
      seq(n, k requires 0 <= k < n && Valid() reads seen => seen[i, k])
    }

    ghost function RowView(i: nat): Option<Row>
      requires Valid() && i < n
      reads rowOf, seen
    {
      match rowOf[i]
      case None => None
      case Some(r) => Some(Row(r.0, r.1, SeenBy(i)))
    }

    ghost function Rows(): (s: seq<Option<Row>>)
      requires Valid()
      reads rowOf, seen
      ensures |s| == n && forall i :: 0 <= i < n ==> s[i] == RowView(i)
    {
      seq(n, i requires 0 <= i < n && Valid() reads rowOf, seen => RowView(i))
    }

    ghost function View(): (j: Judge)
      requires Valid()
      reads this, rowOf, seen, base, prior
      ensures Shaped(j, n)
    {
      Judge(Rows(), idle, basedAt, base[..], prior[..])
    }

    constructor (n: nat)
      ensures Valid() && this.n == n && View() == NewJudge(n) && last == None && frozeGap == None
      ensures fresh(rowOf) && fresh(seen) && fresh(obs) && fresh(base) && fresh(prior)
    {
      this.n := n;
      rowOf := new Option<(StreamActivity, int)>[n](i => None);
      seen := new Option<Take>[n, n]((i, k) => None);
      obs := new Option<Obs>[n](i => None);
      base := new Option<Take>[n](i => None);
      prior := new Option<Take>[n](i => None);
      idle, basedAt, last, frozeGap := false, None, None, None;
    }

    method Observe(streams: seq<Stream>)
      requires Valid() && |streams| == n
      modifies obs
      ensures forall i :: 0 <= i < n ==> obs[i] == ObsOf(streams[i])
    {
      for i := 0 to n
        invariant forall k :: 0 <= k < i ==> obs[k] == ObsOf(streams[k])
      {
        obs[i] := ObsOf(streams[i]);
      }
    }

    method CopyTakes()
      requires Valid()
      modifies base
      ensures base[..] == Takes(obs[..])
    {
      for i := 0 to n
        invariant forall k :: 0 <= k < i ==> base[k] == TakeOf(obs[k])
      {
        base[i] := TakeOf(obs[i]);
      }
    }

    method CopyBase()
      requires Valid()
      modifies prior
      ensures prior[..] == base[..]
    {
      for i := 0 to n
        invariant forall k :: 0 <= k < i ==> prior[k] == base[k]
      {
        prior[i] := base[i];
      }
    }

    method QuietTurn(now: int) returns (quiet: bool)
      requires Valid()
      modifies this`basedAt, base, prior
      ensures Valid() && View() == Based(old(View()), obs[..], now)
      ensures quiet == Quiet(prior[..], obs[..])
    {
      if basedAt.None? || now - basedAt.value >= STALE_AFTER {
        if basedAt.None? { CopyTakes(); }
        CopyBase();
        CopyTakes();
        basedAt := Some(now);
      }
      assert Rows() == old(Rows());
      quiet := CheckQuiet();
    }

    method CheckQuiet() returns (quiet: bool)
      requires Valid()
      ensures quiet == Quiet(prior[..], obs[..])
    {
      for i := 0 to n
        invariant forall k :: 0 <= k < i && obs[k].Some? ==> Since(obs[k].value, prior[k]) < PACKETS
      {
        if obs[i].Some? && Since(obs[i].value, prior[i]) >= PACKETS {
          assert !Quiet(prior[..], obs[..]) by { assert obs[..][i].Some? && prior[..][i] == prior[i]; }
          return false;
        }
      }
      quiet := true;
    }

    /** Row i begins anew with what this turn sees. */
    method RetakeRow(i: nat, o: Obs)
      requires Valid() && i < n && obs[i] == Some(o)
      modifies rowOf, seen
      ensures RowView(i) == Some(Row(o.a, o.heard, Takes(obs[..])))
      ensures forall k :: 0 <= k < n && k != i ==> RowView(k) == old(RowView(k))
    {
      rowOf[i] := Some((o.a, o.heard));
      for k := 0 to n
        invariant rowOf[..] == old(rowOf[..])[i := Some((o.a, o.heard))]
        invariant forall m :: 0 <= m < k ==> seen[i, m] == TakeOf(obs[m])
        invariant forall l, m :: 0 <= l < n && l != i && 0 <= m < n ==> seen[l, m] == old(seen[l, m])
      {
        seen[i, k] := TakeOf(obs[k]);
      }
      assert SeenBy(i) == Takes(obs[..]);
      forall k | 0 <= k < n && k != i ensures RowView(k) == old(RowView(k)) {
        assert SeenBy(k) == old(SeenBy(k)) && rowOf[..][k] == old(rowOf[..])[k];
      }
    }

    /** The siblings that vouch for the path through the silence of stream i. */
    method CountWitnesses(i: nat, now: int) returns (witnesses: nat)
      requires Valid() && i < n && RowView(i).Some?
      ensures witnesses == |Vouching(RowView(i).value, obs[..], now, i)|
    {
      witnesses := 0;
      ghost var row := RowView(i).value;
      ghost var snap := obs[..];
      ghost var found: set<nat> := {};
      for k := 0 to n
        invariant witnesses == |found| && forall m: nat :: m in found <==> m < k && Vouches(row, snap, now, i, m)
      {
        assert snap[k] == obs[k] && row.seen[k] == seen[i, k];
        if k != i && obs[k].Some? && now - obs[k].value.heard <= ECHO {
          if Since(obs[k].value, seen[i, k]) >= PACKETS {
            witnesses, found := witnesses + 1, found + {k};
          }
        }
      }
      assert found == Vouching(row, snap, now, i);
    }

    /** One stream's part of a turn: its row, and the verdict or the return the turn reports. */
    method JudgeOne(i: nat, now: int, froze: bool) returns (convicts: bool, back: bool)
      requires Valid() && i < n
      modifies rowOf, seen
      ensures RowView(i) == NextRow(old(RowView(i)), obs[..], froze, i)
      ensures forall k :: 0 <= k < n && k != i ==> RowView(k) == old(RowView(k))
      ensures convicts == Convicts(old(View()), obs[..], now, froze, i) && back == Returns(old(View()), obs[..], i)
    {
      convicts, back := false, false;
      if obs[i].None? {
        rowOf[i] := None;
        return;
      }
      var o := obs[i].value;
      if froze || rowOf[i].None? || rowOf[i].value.0 != o.a || rowOf[i].value.1 != o.heard {
        back := rowOf[i].Some? && rowOf[i].value.0 == o.a && rowOf[i].value.1 != o.heard && o.mark == rowOf[i].value.1;
        RetakeRow(i, o);
        return;
      }
      if o.froze || o.mark == o.heard || now - o.heard < AFTER || now - o.heard > STALE_AFTER {
        return;
      }
      var witnesses := CountWitnesses(i, now);
      convicts := witnesses >= WITNESSES;
    }

    /** Every stream's part of the turn, in order. */
    method JudgeRows(now: int, froze: bool) returns (verdicts: seq<nat>, back: seq<nat>)
      requires Valid()
      modifies rowOf, seen
      ensures forall i :: 0 <= i < n ==> RowView(i) == NextRow(old(RowView(i)), obs[..], froze, i)
      ensures Reported(verdicts, back, old(View()), obs[..], now, froze, n)
    {
      verdicts, back := [], [];
      ghost var j := View();
      for i := 0 to n
        invariant forall k :: 0 <= k < i ==> RowView(k) == NextRow(j.rows[k], obs[..], froze, k)
        invariant forall k :: i <= k < n ==> RowView(k) == j.rows[k]
        invariant Reported(verdicts, back, j, obs[..], now, froze, i)
      {
        RowsApart(j, View(), now, froze, i);
        var convicts, heard := JudgeOne(i, now, froze);
        if convicts { verdicts := verdicts + [i]; }
        if heard { back := back + [i]; }
      }
    }

    /** What a turn reports of stream i hangs on its own row alone. */
    ghost method RowsApart(j: Judge, v: Judge, now: int, froze: bool, i: nat)
      requires Valid() && i < n && Shaped(j, n) && Shaped(v, n) && j.rows[i] == v.rows[i]
      ensures Convicts(j, obs[..], now, froze, i) == Convicts(v, obs[..], now, froze, i)
      ensures Returns(j, obs[..], i) == Returns(v, obs[..], i)
    {
    }

    /** A turn comes after a freeze by its own tick, or by the reporter's clock while it was idle. */
    method Froze(clock: Option<Clock>, now: int) returns (froze: bool)
      modifies this`frozeGap
      ensures froze == Frozen(clock, idle, last, old(frozeGap), now)
      ensures frozeGap == GapAfter(clock, idle, last, old(frozeGap), now)
    {
      if last.None? { return false; }
      if !idle { return now - last.value > TICK + FREEZE; }
      if clock.None? { return false; }
      var gap := NewGap(clock.value, last.value, frozeGap, now);
      if gap.None? { return false; }
      frozeGap := gap;
      froze := true;
    }

    /** judge: one turn over the streams, up to its marks. */
    method TakeTurn(streams: seq<Stream>, clock: Option<Clock>, now: int)
      returns (verdicts: seq<nat>, back: seq<nat>, ghost froze: bool)
      requires Valid() && |streams| == n
      modifies this, rowOf, seen, obs, base, prior
      ensures forall i :: 0 <= i < n ==> obs[i] == old(ObsOf(streams[i]))
      ensures View() == Turn(old(View()), obs[..], now, froze) && last == Some(now)
      ensures froze == Frozen(clock, old(idle), old(last), old(frozeGap), now)
      ensures frozeGap == GapAfter(clock, old(idle), old(last), old(frozeGap), now)
      ensures forall w: Watch :: clock == Some(w.c) && KeptAs(w, old(last), old(frozeGap)) ==>
        KeptAs(Beats(w, Judges(now, old(idle))), last, frozeGap)
      ensures Reported(verdicts, back, old(View()), obs[..], now, froze, n)
    {
      hide Convicts, Returns, Vouching, NextRow, Quiet, Takes, Reported, Frozen, ObsOf, GapAfter, Beats;
      ghost var j := View();
      forall w: Watch { TurnIsABeat(w, idle, now); }
      var f := Froze(clock, now);
      froze := f;
      last := Some(now);
      Observe(streams);
      idle := QuietTurn(now);
      ghost var based := View();
      verdicts, back := JudgeRows(now, f);
      SameReports(verdicts, back, based, j, obs[..], now, f);
      assert View() == Turn(j, obs[..], now, f);
    }
  }

  /** The verdicts marked on their streams' sessions. */
  method Mark(snap: Snap, verdicts: seq<nat>)
    requires forall i :: 0 <= i < |verdicts| ==> verdicts[i] < |snap| && snap[verdicts[i]].Some?
    requires forall i, k :: 0 <= i < k < |snap| && snap[i].Some? && snap[k].Some? ==> snap[i].value.a != snap[k].value.a
    modifies set i | 0 <= i < |snap| && snap[i].Some? :: snap[i].value.a`silentUnderLoad
    ensures forall i: nat :: i < |snap| && snap[i].Some? ==>
      snap[i].value.a.silentUnderLoad == if i in verdicts then snap[i].value.heard else old(snap[i].value.a.silentUnderLoad)
  {
    for m := 0 to |verdicts|
      invariant forall i: nat :: i < |snap| && snap[i].Some? ==>
        snap[i].value.a.silentUnderLoad
          == if i in verdicts[..m] then snap[i].value.heard else old(snap[i].value.a.silentUnderLoad)
    {
      var o := snap[verdicts[m]].value;
      o.a.MarkSilentUnderLoad(o.heard);
    }
    assert verdicts[..|verdicts|] == verdicts;
  }

  /** No two streams share a session. */
  ghost predicate SessionsApart(streams: seq<Stream>)
    reads set s | s in streams
  {
    forall i, k :: 0 <= i < k < |streams| && streams[i].activity != null ==> streams[i].activity != streams[k].activity
  }

  lemma ReportedAreSeen(verdicts: seq<nat>, back: seq<nat>, j: Judge, snap: Snap, now: int, froze: bool)
    requires Shaped(j, |snap|) && Reported(verdicts, back, j, snap, now, froze, |snap|)
    ensures forall i :: 0 <= i < |verdicts| ==> verdicts[i] < |snap| && snap[verdicts[i]].Some?
  {
    assert forall i :: 0 <= i < |verdicts| ==> verdicts[i] in verdicts;
    hide Vouching;
  }

  /** judge: the turn, and its verdicts marked on the sessions they were given against. */
  method TurnAndMark(j: SilentUnderLoadJudge, streams: seq<Stream>, clock: Option<Clock>, now: int)
    returns (verdicts: seq<nat>, back: seq<nat>, ghost froze: bool)
    requires j.Valid() && |streams| == j.n && SessionsApart(streams)
    modifies j, j.rowOf, j.seen, j.obs, j.base, j.prior
    modifies set i | 0 <= i < |streams| && streams[i].activity != null :: streams[i].activity`silentUnderLoad
    ensures forall i :: 0 <= i < j.n ==> j.obs[i] == old(ObsOf(streams[i]))
    ensures j.View() == Turn(old(j.View()), j.obs[..], now, froze) && j.last == Some(now)
    ensures froze == Frozen(clock, old(j.idle), old(j.last), old(j.frozeGap), now)
    ensures j.frozeGap == GapAfter(clock, old(j.idle), old(j.last), old(j.frozeGap), now)
    ensures forall w: Watch :: clock == Some(w.c) && KeptAs(w, old(j.last), old(j.frozeGap)) ==>
      KeptAs(Beats(w, Judges(now, old(j.idle))), j.last, j.frozeGap)
    ensures Reported(verdicts, back, old(j.View()), j.obs[..], now, froze, j.n)
    ensures forall i: nat :: i < j.n && j.obs[i].Some? && i in verdicts ==>
      j.obs[i].value.a.silentUnderLoad == j.obs[i].value.heard
    ensures forall i: nat :: i < j.n && streams[i].activity != null && i !in verdicts ==>
      streams[i].activity.silentUnderLoad == old(streams[i].activity.silentUnderLoad)
  {
    hide Turn, Returns, Vouching, Frozen, GapAfter, Beats, Convicts, Reported;
    verdicts, back, froze := j.TakeTurn(streams, clock, now);
    ghost var v := j.View();
    ReportedAreSeen(verdicts, back, old(j.View()), j.obs[..], now, froze);
    assert forall i :: 0 <= i < j.n && j.obs[i].Some? ==> j.obs[i].value.a == streams[i].activity;
    Mark(j.obs[..], verdicts);
    assert j.View() == v;
  }
}
