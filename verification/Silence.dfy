/**
  The rules of the judge of silence under load (pkg/proxy/silent_under_load.go) on
  values: what one turn makes of a snapshot of the streams, and what whole
  histories of turns hold. Times are nanoseconds.
 */
module Silence {
  import opened Sets
  import opened Wrappers

  const AFTER := 4_000_000_000
  const ECHO := 2_000_000_000
  const STALE_AFTER := 35_000_000_000
  const PACKETS := 24
  const WITNESSES := 2

  /** One session's clocks (streamActivity in keepalive_policy.go). */
  class StreamActivity {
    var lastRx: int
    var lastHeard: int
    var rxCount: nat
    var silentUnderLoad: int

    constructor (now: int)
      ensures lastRx == lastHeard == now && rxCount == 0 && silentUnderLoad == 0
    {
      lastRx, lastHeard, rxCount, silentUnderLoad := now, now, 0, 0;
    }

    method NoteRx(now: int)
      modifies this`lastHeard, this`lastRx, this`rxCount
      ensures lastHeard == lastRx == now && rxCount == old(rxCount) + 1
      ensures FoundSilentUnderLoad() <==> silentUnderLoad == now
      ensures silentUnderLoad != now ==> !Stale(now)
    {
      lastHeard := now;
      lastRx := now;
      rxCount := rxCount + 1;
    }

    /** A freeze restarts the clock of liveness alone. */
    method ResetLiveness(now: int)
      modifies this`lastRx
      ensures lastRx == now
    {
      lastRx := now;
    }

    predicate FrozeSinceHeard()
      reads this
    {
      lastRx > lastHeard
    }

    predicate FoundSilentUnderLoad()
      reads this
    {
      silentUnderLoad == lastHeard
    }

    /** The dispatcher's measure: stale by age, or by a verdict nothing was heard since. */
    predicate Stale(now: int)
      reads this
    {
      now - lastHeard > STALE_AFTER || silentUnderLoad == lastHeard
    }

    method MarkSilentUnderLoad(heard: int)
      modifies this`silentUnderLoad
      ensures silentUnderLoad == heard
    {
      silentUnderLoad := heard;
    }
  }

  /** What a turn sees of a ready stream: its session, when and how much it heard, and its mark. */
  datatype Obs = Obs(a: StreamActivity, heard: int, count: nat, froze: bool, mark: int)

  type Snap = seq<Option<Obs>>

  /** What a take keeps of a stream. */
  datatype Take = Take(a: StreamActivity, count: nat)

  /** The silence a stream is in: whose, since which packet, and the siblings' takes at that turn. */
  datatype Row = Row(a: StreamActivity, heard: int, seen: seq<Option<Take>>)

  datatype Judge = Judge(rows: seq<Option<Row>>, idle: bool, basedAt: Option<int>,
                         base: seq<Option<Take>>, prior: seq<Option<Take>>)

  function Nothing<T>(n: nat): seq<Option<T>> { seq(n, i => None) }

  function NewJudge(n: nat): Judge { Judge(Nothing(n), false, None, Nothing(n), Nothing(n)) }

  function TakeOf(o: Option<Obs>): Option<Take> {
    match o
    case None => None
    case Some(v) => Some(Take(v.a, v.count))
  }

  function Takes(snap: Snap): (t: seq<Option<Take>>)
    ensures |t| == |snap| && forall k :: 0 <= k < |snap| ==> t[k] == TakeOf(snap[k])
  {
    seq(|snap|, i requires 0 <= i < |snap| => TakeOf(snap[i]))
  }

  /** What o has heard since take t: all of its packets if its session is newer. */
  function Since(o: Obs, t: Option<Take>): int {
    if t.Some? && t.value.a == o.a then o.count - t.value.count else o.count
  }

  // ---- One turn ----------------------------------------------------------------------

  predicate TakesAnew(j: Judge, now: int) { j.basedAt.None? || now - j.basedAt.value >= STALE_AFTER }

  /** quiet's takes: base becomes prior once it is STALE_AFTER old; the first take is both. */
  function Based(j: Judge, snap: Snap, now: int): Judge {
    if TakesAnew(j, now) then
      j.(prior := if j.basedAt.None? then Takes(snap) else j.base, base := Takes(snap), basedAt := Some(now))
    else j
  }

  /** No stream has heard a witness's worth since prior. */
  predicate Quiet(prior: seq<Option<Take>>, snap: Snap)
    requires |prior| == |snap|
  {
    forall i :: 0 <= i < |snap| && snap[i].Some? ==> Since(snap[i].value, prior[i]) < PACKETS
  }

  /** The row still stands for what o shows: the same session, nothing heard since, no freeze. */
  predicate Kept(row: Option<Row>, o: Obs, froze: bool) {
    !froze && row.Some? && row.value.a == o.a && row.value.heard == o.heard
  }

  function NextRow(row: Option<Row>, snap: Snap, froze: bool, i: nat): Option<Row>
    requires i < |snap|
  {
    if snap[i].None? then None
    else if Kept(row, snap[i].value, froze) then row
    else Some(Row(snap[i].value.a, snap[i].value.heard, Takes(snap)))
  }

  /** Sibling k vouches for the path through the silence of i that row stands for. */
  predicate Vouches(row: Row, snap: Snap, now: int, i: nat, k: nat)
    requires |row.seen| == |snap|
  {
    k < |snap| && k != i && snap[k].Some? && now - snap[k].value.heard <= ECHO
    && Since(snap[k].value, row.seen[k]) >= PACKETS
  }

  function Vouching(row: Row, snap: Snap, now: int, i: nat): set<nat>
    requires |row.seen| == |snap|
  {
    set k: nat | k < |snap| && Vouches(row, snap, now, i, k)
  }

  ghost predicate Shaped(j: Judge, n: nat) {
    && |j.rows| == |j.base| == |j.prior| == n
    && forall i :: 0 <= i < n && j.rows[i].Some? ==> |j.rows[i].value.seen| == n
  }

  /** The turn gives its verdict on stream i. */
  predicate Convicts(j: Judge, snap: Snap, now: int, froze: bool, i: nat)
    requires |j.rows| == |snap| && i < |snap|
    requires j.rows[i].Some? ==> |j.rows[i].value.seen| == |snap|
  {
    && snap[i].Some? && Kept(j.rows[i], snap[i].value, froze)
    && !snap[i].value.froze && snap[i].value.mark != snap[i].value.heard
    && AFTER <= now - snap[i].value.heard <= STALE_AFTER
    && |Vouching(j.rows[i].value, snap, now, i)| >= WITNESSES
  }

  /** The turn reports stream i as back: its session, found silent, has heard a packet. */
  predicate Returns(j: Judge, snap: Snap, i: nat)
    requires |j.rows| == |snap| && i < |snap|
  {
    && snap[i].Some? && j.rows[i].Some? && j.rows[i].value.a == snap[i].value.a
    && j.rows[i].value.heard != snap[i].value.heard && snap[i].value.mark == j.rows[i].value.heard
  }

  function Turn(j: Judge, snap: Snap, now: int, froze: bool): Judge
    requires |j.rows| == |j.base| == |j.prior| == |snap|
  {
    var b := Based(j, snap, now);
    b.(idle := Quiet(b.prior, snap),
       rows := seq(|snap|, i requires 0 <= i < |snap| => NextRow(j.rows[i], snap, froze, i)))
  }

  // ---- Histories -----------------------------------------------------------------------

  /** A turn's snapshot, its time, and whether it came after a freeze. */
  datatype Moment = Moment(snap: Snap, now: int, froze: bool)

  ghost predicate Wide(h: seq<Moment>, n: nat) {
    forall u :: 0 <= u < |h| ==> |h[u].snap| == n
  }

  /** The judge after the turns of h. */
  ghost function Run(n: nat, h: seq<Moment>): (j: Judge)
    requires Wide(h, n)
    ensures Shaped(j, n)
    decreases |h|
  {
    if h == [] then NewJudge(n)
    else
      var m := h[|h| - 1];
      Turn(Run(n, h[..|h| - 1]), m.snap, m.now, m.froze)
  }

  /** Stream i is in session a at turn u. */
  predicate In(h: seq<Moment>, u: nat, i: nat, older a: StreamActivity)
  {
    u < |h| && i < |h[u].snap| && h[u].snap[i].Some? && h[u].snap[i].value.a == a
  }

  /** A session's packet count only grows. */
  ghost predicate CountsGrow(h: seq<Moment>) {
    forall u, v, i: nat :: 0 <= u <= v < |h| && i < |h[u].snap| && i < |h[v].snap|
      && h[u].snap[i].Some? && h[v].snap[i].Some? && h[u].snap[i].value.a == h[v].snap[i].value.a
      ==> h[u].snap[i].value.count <= h[v].snap[i].value.count
  }

  /** A session that has ended is never ready again. */
  ghost predicate NoneRevives(h: seq<Moment>) {
    forall u, v, w, i: nat, a :: 0 <= u <= v <= w && In(h, u, i, a) && In(h, w, i, a) ==> In(h, v, i, a)
  }

  /** Turns come at increasing times, and nothing is heard after the turn that sees it. */
  ghost predicate Timely(h: seq<Moment>) {
    && (forall u, v :: 0 <= u < v < |h| ==> h[u].now < h[v].now)
    && (forall u, i :: 0 <= u < |h| && 0 <= i < |h[u].snap| && h[u].snap[i].Some? ==> h[u].snap[i].value.heard <= h[u].now)
  }

  /** What the model takes for granted of the sessions and the clock. */
  ghost predicate Sound(h: seq<Moment>, n: nat) {
    Wide(h, n) && CountsGrow(h) && NoneRevives(h) && Timely(h)
  }

  lemma SoundBefore(h: seq<Moment>, n: nat, k: nat)
    requires Sound(h, n) && k <= |h|
    ensures Sound(h[..k], n)
  {
    var g := h[..k];
    assert forall u: nat, i: nat, a: StreamActivity :: In(g, u, i, a) <==> u < k && In(h, u, i, a);
  }

  /** The turns base, prior and the row of stream i were last taken at. */
  ghost function BaseAt(n: nat, h: seq<Moment>): nat
    requires h != [] && Wide(h, n)
    decreases |h|
  {
    var prefix := h[..|h| - 1];
    if TakesAnew(Run(n, prefix), h[|h| - 1].now) then |h| - 1
    else if prefix == [] then 0 else BaseAt(n, prefix)
  }

  ghost function PriorAt(n: nat, h: seq<Moment>): nat
    requires h != [] && Wide(h, n)
    decreases |h|
  {
    var prefix := h[..|h| - 1];
    if prefix == [] then 0
    else if TakesAnew(Run(n, prefix), h[|h| - 1].now) then BaseAt(n, prefix)
    else PriorAt(n, prefix)
  }

  ghost function RowAt(n: nat, h: seq<Moment>, i: nat): nat
    requires h != [] && Wide(h, n) && i < n
    decreases |h|
  {
    var prefix, m := h[..|h| - 1], h[|h| - 1];
    if prefix != [] && m.snap[i].Some? && Kept(Run(n, prefix).rows[i], m.snap[i].value, m.froze) then RowAt(n, prefix, i)
    else |h| - 1
  }

  /** base and prior are the takes of their turns; prior's is STALE_AFTER old, or the very first. */
  ghost predicate TakesHold(n: nat, h: seq<Moment>)
    requires h != [] && Wide(h, n)
  {
    var j, b, p := Run(n, h), BaseAt(n, h), PriorAt(n, h);
    && b < |h| && p <= b
    && j.base == Takes(h[b].snap) && j.basedAt == Some(h[b].now) && j.prior == Takes(h[p].snap)
    && (p == 0 || h[|h| - 1].now - h[p].now >= STALE_AFTER)
  }

  lemma {:induction false} TakesAre(n: nat, h: seq<Moment>)
    requires h != [] && Sound(h, n)
    ensures TakesHold(n, h)
    decreases |h|
  {
    var prefix, m := h[..|h| - 1], h[|h| - 1];
    if prefix != [] {
      SoundBefore(h, n, |h| - 1);
      TakesAre(n, prefix);
      assert h[|prefix| - 1].now < m.now;
      hide Sound, Takes, Quiet, NextRow;
    }
  }

  /** The row of i is what its turn saw, and i has been in the same silence, with no freeze, ever since. */
  ghost predicate RowHolds(n: nat, h: seq<Moment>, i: nat)
    requires h != [] && Wide(h, n) && i < n
  {
    var row, r := Run(n, h).rows[i], RowAt(n, h, i);
    && r < |h|
    && (row.None? <==> h[|h| - 1].snap[i].None?)
    && (row.Some? ==> row.value.seen == Takes(h[r].snap) && SameSilence(h, i, r, row.value.a, row.value.heard))
  }

  ghost predicate SameSilence(h: seq<Moment>, i: nat, r: nat, a: StreamActivity, heard: int) {
    && (forall u :: r <= u < |h| ==> i < |h[u].snap| && h[u].snap[i].Some? && h[u].snap[i].value.a == a
                                     && h[u].snap[i].value.heard == heard)
    && (forall u :: r < u < |h| ==> !h[u].froze)
  }

  lemma SilenceGoesOn(h: seq<Moment>, i: nat, r: nat, a: StreamActivity, heard: int)
    requires h != [] && r < |h| - 1 && SameSilence(h[..|h| - 1], i, r, a, heard)
    requires var m := h[|h| - 1];
             !m.froze && i < |m.snap| && m.snap[i].Some? && m.snap[i].value.a == a && m.snap[i].value.heard == heard
    ensures SameSilence(h, i, r, a, heard)
  {
    var prefix := h[..|h| - 1];
    assert forall u :: 0 <= u < |prefix| ==> h[u] == prefix[u];
  }

  lemma {:induction false} RowIs(n: nat, h: seq<Moment>, i: nat)
    requires h != [] && Wide(h, n) && i < n
    ensures RowHolds(n, h, i)
    decreases |h|
  {
    var prefix, m := h[..|h| - 1], h[|h| - 1];
    var row := Run(n, prefix).rows[i];
    if m.snap[i].Some? && prefix != [] && Kept(row, m.snap[i].value, m.froze) {
      RowIs(n, prefix, i);
      SilenceGoesOn(h, i, RowAt(n, prefix, i), row.value.a, row.value.heard);
      assert Run(n, h).rows[i] == row;
    } else if prefix == [] {
      assert Run(n, prefix).rows[i] == None;
    }
  }

  // ---- Verdicts are justified -------------------------------------------------------------

  /** The last turn of h convicts stream i. */
  ghost predicate Convicted(n: nat, h: seq<Moment>, i: nat)
    requires h != [] && Wide(h, n) && i < n
  {
    var m := h[|h| - 1];
    Convicts(Run(n, h[..|h| - 1]), m.snap, m.now, m.froze, i)
  }

  /** Between turns r and the last of h stream k got a witness's worth of packets, the last of them of late. */
  ghost predicate Heard24(n: nat, h: seq<Moment>, r: nat, k: nat)
    requires h != [] && r < |h| && Wide(h, n)
  {
    var m := h[|h| - 1];
    && k < n && m.snap[k].Some? && m.now - m.snap[k].value.heard <= ECHO
    && Since(m.snap[k].value, TakeOf(h[r].snap[k])) >= PACKETS
  }

  lemma RowOfConvicted(n: nat, h: seq<Moment>, i: nat)
    requires Wide(h, n) && h != [] && i < n && Convicted(n, h, i)
    ensures |h| > 1 && RowAt(n, h[..|h| - 1], i) < |h| - 1
    ensures var o, r, row := h[|h| - 1].snap[i].value, RowAt(n, h[..|h| - 1], i), Run(n, h[..|h| - 1]).rows[i];
            row == Some(Row(o.a, o.heard, Takes(h[r].snap))) && SameSilence(h, i, r, o.a, o.heard)
  {
    var prefix := h[..|h| - 1];
    var o := h[|h| - 1].snap[i].value;
    if prefix != [] {
      RowIs(n, prefix, i);
      SilenceGoesOn(h, i, RowAt(n, prefix, i), o.a, o.heard);
    }
  }

  /** The siblings that vouched for the verdict on stream i. */
  ghost function Witnesses(n: nat, h: seq<Moment>, i: nat): set<nat>
    requires h != [] && Wide(h, n) && i < n && Convicted(n, h, i)
  {
    var m := h[|h| - 1];
    Vouching(Run(n, h[..|h| - 1]).rows[i].value, m.snap, m.now, i)
  }

  /**
    Every verdict is justified by the history: from turn r on, when its row was
    taken, the stream was in one session and heard nothing, with no freeze, and
    had been silent for 4 to 35 seconds, while two others or more each got 24
    packets after that turn, and so after its last packet, and one of late.
   */
  lemma VerdictIsJustified(n: nat, h: seq<Moment>, i: nat)
    requires Sound(h, n) && h != [] && i < n && Convicted(n, h, i)
    ensures var m, r := h[|h| - 1], RowAt(n, h[..|h| - 1], i);
            && m.snap[i].Some? && r < |h| - 1 && SameSilence(h, i, r, m.snap[i].value.a, m.snap[i].value.heard)
            && m.snap[i].value.heard <= h[r].now && !m.froze && !m.snap[i].value.froze
            && AFTER <= m.now - m.snap[i].value.heard <= STALE_AFTER
            && |Witnesses(n, h, i)| >= WITNESSES && i !in Witnesses(n, h, i)
            && forall k :: k in Witnesses(n, h, i) ==> Heard24(n, h, r, k)
  {
    var prefix, m := h[..|h| - 1], h[|h| - 1];
    RowOfConvicted(n, h, i);
    hide Run, Takes, CountsGrow, NoneRevives;
    assert h[RowAt(n, prefix, i)].snap[i].value.heard <= h[RowAt(n, prefix, i)].now;
  }

  // ---- And every silence that is justified is a verdict ------------------------------------

  /** The silence stream i is in at the end of h began at turn r: the same packet since, another or a freeze before. */
  ghost predicate SilentFrom(h: seq<Moment>, i: nat, r: nat) {
    && r < |h| && i < |h[|h| - 1].snap| && h[|h| - 1].snap[i].Some?
    && SameSilence(h, i, r, h[|h| - 1].snap[i].value.a, h[|h| - 1].snap[i].value.heard)
    && (r == 0 || h[r].froze || AnotherBefore(h, i, r))
  }

  /** Stream i was in another session before turn r, or in none, or had not heard the packet it has. */
  ghost predicate AnotherBefore(h: seq<Moment>, i: nat, r: nat) {
    && 0 < r < |h| && i < |h[r].snap| && i < |h[r - 1].snap|
    && (h[r].snap[i].Some? && h[r - 1].snap[i].Some? ==>
          h[r].snap[i].value.a != h[r - 1].snap[i].value.a || h[r].snap[i].value.heard != h[r - 1].snap[i].value.heard)
  }

  lemma SilentBefore(h: seq<Moment>, i: nat, r: nat)
    requires SilentFrom(h, i, r) && r < |h| - 1
    ensures var prefix, o := h[..|h| - 1], h[|h| - 1].snap[i].value;
            && SilentFrom(prefix, i, r) && !h[|h| - 1].froze && prefix[|prefix| - 1].snap[i].Some?
            && prefix[|prefix| - 1].snap[i].value.a == o.a && prefix[|prefix| - 1].snap[i].value.heard == o.heard
  {
    var prefix := h[..|h| - 1];
    assert forall u :: 0 <= u < |prefix| ==> prefix[u] == h[u];
  }

  /** The row of a stream is as old as its silence. */
  lemma {:induction false} RowIsOfTheSilence(n: nat, h: seq<Moment>, i: nat, r: nat)
    requires Wide(h, n) && i < n && SilentFrom(h, i, r)
    ensures RowAt(n, h, i) == r
    decreases |h|
  {
    var prefix := h[..|h| - 1];
    if prefix != [] { RowSession(n, prefix, i); }
    if r < |h| - 1 {
      SilentBefore(h, i, r);
      RowIsOfTheSilence(n, prefix, i, r);
    }
    hide Run;
  }

  lemma SilenceBegins(n: nat, h: seq<Moment>, i: nat)
    requires h != [] && Wide(h, n) && i < n && h[|h| - 1].snap[i].Some? && RowAt(n, h, i) == |h| - 1
    requires |h| > 1 ==> !Kept(Run(n, h[..|h| - 1]).rows[i], h[|h| - 1].snap[i].value, h[|h| - 1].froze)
    ensures SilentFrom(h, i, |h| - 1)
  {
    if |h| > 1 {
      RowSession(n, h[..|h| - 1], i);
      assert h[..|h| - 1][|h| - 2] == h[|h| - 2];
    }
    hide Run, RowAt;
  }

  lemma SilenceLasts(h: seq<Moment>, i: nat, r: nat)
    requires |h| > 1 && SilentFrom(h[..|h| - 1], i, r) && !h[|h| - 1].froze && i < |h[|h| - 1].snap|
    requires var o, was := h[|h| - 1].snap[i], h[|h| - 2].snap[i];
             o.Some? && was.Some? && o.value.a == was.value.a && o.value.heard == was.value.heard
    ensures SilentFrom(h, i, r)
  {
    var prefix := h[..|h| - 1];
    assert forall u :: 0 <= u < |prefix| ==> prefix[u] == h[u];
  }

  /** Every stream seen is in a silence, which began at the turn its row was taken. */
  lemma {:induction false} SilentSince(n: nat, h: seq<Moment>, i: nat)
    requires h != [] && Wide(h, n) && i < n && h[|h| - 1].snap[i].Some?
    ensures SilentFrom(h, i, RowAt(n, h, i))
    decreases |h|
  {
    hide SilentFrom, Run;
    var prefix, m := h[..|h| - 1], h[|h| - 1];
    if prefix != [] && Kept(Run(n, prefix).rows[i], m.snap[i].value, m.froze) {
      RowSession(n, prefix, i);
      assert prefix[|prefix| - 1] == h[|h| - 2];
      SilentSince(n, prefix, i);
      SilenceLasts(h, i, RowAt(n, prefix, i));
    } else {
      SilenceBegins(n, h, i);
    }
  }

  /** Two siblings vouch for the path since turn r. */
  ghost predicate TwoHeard(n: nat, h: seq<Moment>, r: nat, i: nat, j: nat, k: nat)
    requires h != [] && r < |h| && Wide(h, n)
  {
    j != i && k != i && j != k && Heard24(n, h, r, j) && Heard24(n, h, r, k)
  }

  /** Stream i has been silent since turn r for 4 to 35 s, with no freeze and no verdict on it, and two siblings have not. */
  ghost predicate Condemned(n: nat, h: seq<Moment>, i: nat, r: nat)
    requires h != [] && Wide(h, n) && i < n
  {
    var m := h[|h| - 1];
    && SilentFrom(h, i, r) && r < |h| - 1
    && !m.snap[i].value.froze && m.snap[i].value.mark != m.snap[i].value.heard
    && 4_000_000_000 <= m.now - m.snap[i].value.heard <= 35_000_000_000
    && exists j, k :: TwoHeard(n, h, r, i, j, k)
  }

  lemma WitnessesAre(n: nat, h: seq<Moment>, i: nat, r: nat, row: Row)
    requires Wide(h, n) && r < |h| && i < n && row.seen == Takes(h[r].snap)
    ensures var m := h[|h| - 1]; |Vouching(row, m.snap, m.now, i)| >= 2 <==> exists j, k :: TwoHeard(n, h, r, i, j, k)
  {
    var m := h[|h| - 1];
    var w := Vouching(row, m.snap, m.now, i);
    assert forall k: nat :: k in w <==> k != i && Heard24(n, h, r, k);
    hide Heard24, Vouching, Takes;
    if |w| >= 2 {
      var j :| j in w;
      var rest := w - {j};
      assert |rest| == |w| - 1;
      var k :| k in rest;
      assert TwoHeard(n, h, r, i, j, k);
    }
    if j: nat, k: nat :| TwoHeard(n, h, r, i, j, k) {
      SubsetSize({j, k}, w);
    }
  }

  /**
    A turn gives its verdict on a stream exactly if the history condemns it: from
    the turn its silence began to this one, with no freeze and nothing heard, two
    siblings or more each got 24 packets, the last of them of late, and it has
    been silent for 4 to 35 seconds with no verdict on this silence.
   */
  lemma VerdictIsGiven(n: nat, h: seq<Moment>, i: nat)
    requires Wide(h, n) && h != [] && i < n
    ensures Convicted(n, h, i) <==> exists r :: Condemned(n, h, i, r)
  {
    var prefix, m := h[..|h| - 1], h[|h| - 1];
    if Convicted(n, h, i) {
      RowOfConvicted(n, h, i);
      var r := RowAt(n, prefix, i);
      SilentSince(n, h, i);
      assert RowAt(n, h, i) == r;
      WitnessesAre(n, h, i, r, Run(n, prefix).rows[i].value);
      hide Run, SilentFrom, RowAt, TwoHeard, Vouching;
      assert Condemned(n, h, i, r);
    }
    if r :| Condemned(n, h, i, r) {
      SilentBefore(h, i, r);
      RowIsOfTheSilence(n, prefix, i, r);
      RowIs(n, prefix, i);
      RowSession(n, prefix, i);
      WitnessesAre(n, h, i, r, Run(n, prefix).rows[i].value);
      hide Run, SilentFrom, RowAt, TwoHeard, Vouching;
    }
  }

  /**
    A stream is reported back exactly if it had heard nothing since the packet it
    is marked for at the turn before, in this session, and has now.
   */
  lemma ReturnIsReported(n: nat, h: seq<Moment>, i: nat)
    requires Wide(h, n) && h != [] && i < n
    ensures Returns(Run(n, h[..|h| - 1]), h[|h| - 1].snap, i) <==>
            && |h| > 1 && h[|h| - 1].snap[i].Some? && h[|h| - 2].snap[i].Some?
            && var o, was := h[|h| - 1].snap[i].value, h[|h| - 2].snap[i].value;
               o.a == was.a && o.heard != was.heard && o.mark == was.heard
  {
    var prefix := h[..|h| - 1];
    if prefix != [] {
      RowSession(n, prefix, i);
      assert prefix[|prefix| - 1] == h[|h| - 2];
      hide Run;
    }
  }

  // ---- Idle loses nothing --------------------------------------------------------------------

  /** What k has heard since a later take is no more than since an earlier one. */
  lemma LaterTakeHeardLess(n: nat, h: seq<Moment>, p: nat, r: nat, v: nat, k: nat)
    requires Sound(h, n) && p <= r <= v < |h| && k < n && h[v].snap[k].Some?
    ensures var o := h[v].snap[k].value;
            Since(o, TakeOf(h[r].snap[k])) <= Since(o, TakeOf(h[p].snap[k]))
  {
    var o := h[v].snap[k].value;
    var early, later := h[p].snap[k], h[r].snap[k];
    if early.Some? && early.value.a == o.a {
      assert In(h, p, k, o.a) && In(h, v, k, o.a);
      assert In(h, r, k, o.a);
    }
  }

  lemma IdleIs(n: nat, h: seq<Moment>)
    requires h != [] && Sound(h, n)
    ensures var p := PriorAt(n, h);
            && p < |h| && (p == 0 || h[|h| - 1].now - h[p].now >= STALE_AFTER)
            && (Run(n, h).idle <==> Quiet(Takes(h[p].snap), h[|h| - 1].snap))
  {
    TakesAre(n, h);
  }

  /**
    A turn that convicts leaves the judge awake, or: no turn that leaves it idle
    has convicted anybody. The prior take is never newer than the row of a
    stream it may judge.
   */
  lemma ConvictingIsAwake(n: nat, h: seq<Moment>, i: nat)
    requires Sound(h, n) && h != [] && i < n && Convicted(n, h, i)
    ensures !Run(n, h).idle && PriorAt(n, h) <= RowAt(n, h[..|h| - 1], i)
  {
    var m := h[|h| - 1];
    var r := RowAt(n, h[..|h| - 1], i);
    VerdictIsJustified(n, h, i);
    var witnesses := Witnesses(n, h, i);
    IdleIs(n, h);
    PriorNoNewer(n, h, i, r, PriorAt(n, h));
    hide *;
    var k :| k in witnesses;
    NotQuiet(n, h, PriorAt(n, h), r, k);
  }

  lemma NotQuiet(n: nat, h: seq<Moment>, p: nat, r: nat, k: nat)
    requires Sound(h, n) && h != [] && p <= r < |h| && Heard24(n, h, r, k)
    ensures !Quiet(Takes(h[p].snap), h[|h| - 1].snap)
  {
    LaterTakeHeardLess(n, h, p, r, |h| - 1, k);
  }

  lemma PriorNoNewer(n: nat, h: seq<Moment>, i: nat, r: nat, p: nat)
    requires Sound(h, n) && h != [] && i < n && r < |h| && p < |h| && h[|h| - 1].snap[i].Some?
    requires p == 0 || h[|h| - 1].now - h[p].now >= STALE_AFTER
    requires h[|h| - 1].snap[i].value.heard <= h[r].now && h[|h| - 1].now - h[|h| - 1].snap[i].value.heard <= STALE_AFTER
    ensures p <= r
  {
    if p != 0 { InTime(h, p, r); }
  }

  lemma InTime(h: seq<Moment>, u: nat, v: nat)
    requires Timely(h) && u < |h| && v < |h| && h[u].now <= h[v].now
    ensures u <= v
  {
  }

  /** Turn m sees nothing new after turn last: no packet heard, no stream come ready. */
  ghost predicate Still(last: Snap, m: Snap)
    requires |last| == |m|
  {
    forall i :: 0 <= i < |m| && m[i].Some? ==>
      last[i].Some? && last[i].value.a == m[i].value.a
      && last[i].value.count == m[i].value.count && last[i].value.heard == m[i].value.heard
  }

  lemma PriorMovesOn(n: nat, h: seq<Moment>)
    requires Sound(h, n) && |h| > 1
    ensures Sound(h[..|h| - 1], n) && PriorAt(n, h[..|h| - 1]) <= PriorAt(n, h)
  {
    SoundBefore(h, n, |h| - 1);
    TakesAre(n, h[..|h| - 1]);
  }

  /** A turn that would see nothing new leaves an idle judge idle. */
  lemma StillStaysIdle(n: nat, h: seq<Moment>)
    requires Sound(h, n) && |h| > 1 && Run(n, h[..|h| - 1]).idle && Still(h[|h| - 2].snap, h[|h| - 1].snap)
    ensures Run(n, h).idle
  {
    var prefix, m := h[..|h| - 1], h[|h| - 1];
    var p, q := PriorAt(n, prefix), PriorAt(n, h);
    PriorMovesOn(n, h);
    IdleIs(n, prefix);
    IdleIs(n, h);
    assert prefix[|prefix| - 1] == h[|h| - 2] && prefix[p] == h[p];
    hide *;
    QuietAgain(n, h, p, q);
  }

  lemma QuietAgain(n: nat, h: seq<Moment>, p: nat, q: nat)
    requires Sound(h, n) && |h| > 1 && p <= q < |h|
    requires Quiet(Takes(h[p].snap), h[|h| - 2].snap) && Still(h[|h| - 2].snap, h[|h| - 1].snap)
    ensures Quiet(Takes(h[q].snap), h[|h| - 1].snap)
  {
    var m := h[|h| - 1];
    forall i | 0 <= i < n && m.snap[i].Some? ensures Since(m.snap[i].value, TakeOf(h[q].snap[i])) < PACKETS {
      LaterTakeHeardLess(n, h, p, q, |h| - 1, i);
      assert Since(h[|h| - 2].snap[i].value, TakeOf(h[p].snap[i])) < PACKETS;
    }
  }

  /** Every turn of h from its m-th on sees nothing new. */
  ghost predicate StillFrom(h: seq<Moment>, m: nat, n: nat)
    requires Wide(h, n)
  {
    forall u :: m <= u < |h| && u > 0 ==> Still(h[u - 1].snap, h[u].snap)
  }

  /** No turn of h from its m-th on comes after a freeze. */
  ghost predicate AwakeFrom(h: seq<Moment>, m: nat) {
    forall u :: m <= u < |h| ==> !h[u].froze
  }

  lemma SoundIsWide(h: seq<Moment>, n: nat)
    requires Sound(h, n)
    ensures Wide(h, n)
  {
  }

  lemma StillBefore(h: seq<Moment>, m: nat, n: nat)
    requires Wide(h, n) && StillFrom(h, m, n) && 0 < m < |h|
    ensures StillFrom(h[..|h| - 1], m, n) && Still(h[|h| - 2].snap, h[|h| - 1].snap)
  {
    assert forall u :: 0 <= u < |h| - 1 ==> h[..|h| - 1][u] == h[u];
  }

  lemma {:induction false} IdleStays(n: nat, h: seq<Moment>, m: nat)
    requires Sound(h, n) && 0 < m <= |h| && Run(n, h[..m]).idle && StillFrom(h, m, n)
    ensures Run(n, h).idle
    decreases |h|
  {
    hide *;
    if m == |h| {
      assert h[..m] == h;
    } else {
      var prefix := h[..|h| - 1];
      SoundBefore(h, n, |h| - 1);
      assert prefix[..m] == h[..m];
      SoundIsWide(h, n);
      StillBefore(h, m, n);
      IdleStays(n, prefix, m);
      StillStaysIdle(n, h);
    }
  }

  /**
    Idle once, the judge is idle after every turn it would take while nothing is
    heard and no stream comes ready, and none of those turns convicts anybody,
    freezes or not.
   */
  lemma IdleLasts(n: nat, h: seq<Moment>, m: nat, i: nat)
    requires Sound(h, n) && 0 < m <= |h| && i < n && Run(n, h[..m]).idle && StillFrom(h, m, n)
    ensures Run(n, h).idle && !Convicted(n, h, i)
  {
    hide *;
    IdleStays(n, h, m);
    NoneConvicted(n, h, i);
  }

  lemma NoneConvicted(n: nat, h: seq<Moment>, i: nat)
    requires Sound(h, n) && h != [] && i < n && Run(n, h).idle
    ensures !Convicted(n, h, i)
  {
    hide Run, Convicted;
    if Convicted(n, h, i) { ConvictingIsAwake(n, h, i); }
  }

  /** The row of i is what it was at turn m, unless the stream has gone since. */
  ghost predicate RowStays(n: nat, h: seq<Moment>, m: nat, i: nat)
    requires Wide(h, n) && 0 < m <= |h| && i < n
  {
    Run(n, h).rows[i] == if h[|h| - 1].snap[i].Some? then Run(n, h[..m]).rows[i] else None
  }

  lemma RowStaysStep(n: nat, h: seq<Moment>, m: nat, i: nat)
    requires Wide(h, n) && 0 < m < |h| && i < n
    requires Still(h[|h| - 2].snap, h[|h| - 1].snap) && !h[|h| - 1].froze && RowStays(n, h[..|h| - 1], m, i)
    ensures RowStays(n, h, m, i)
  {
    var prefix := h[..|h| - 1];
    assert prefix[..m] == h[..m] && prefix[|prefix| - 1] == h[|h| - 2];
    RowIs(n, prefix, i);
    hide Takes;
  }

  /** While nothing is heard, no stream comes ready and no turn comes after a freeze, the rows stay as they are. */
  lemma {:induction false} RowsStay(n: nat, h: seq<Moment>, m: nat, i: nat)
    requires Wide(h, n) && 0 < m <= |h| && i < n && StillFrom(h, m, n) && AwakeFrom(h, m)
    ensures RowStays(n, h, m, i)
    decreases |h|
  {
    if m == |h| {
      assert h[..m] == h;
      RowIs(n, h, i);
      hide Run, RowAt;
    } else {
      hide Run, Still;
      var prefix := h[..|h| - 1];
      assert prefix[..m] == h[..m];
      StillBefore(h, m, n);
      RowsStay(n, prefix, m, i);
      RowStaysStep(n, h, m, i);
    }
  }

  /**
    Sleeping loses nothing against ticking: with no freeze in between, the quiet
    turns left out would have convicted nobody, and the turn that wakes the judge
    convicts the same streams, reports the same returns and keeps the same rows.
   */
  lemma SleepingLosesNothing(n: nat, h: seq<Moment>, m: nat, i: nat)
    requires Sound(h, n) && 0 < m < |h| && i < n && Run(n, h[..m]).idle
    requires StillFrom(h[..|h| - 1], m, n) && AwakeFrom(h[..|h| - 1], m)
    ensures forall u :: m <= u < |h| ==> !Convicted(n, h[..u], i)
    ensures var w, slept, ticked := h[|h| - 1], Run(n, h[..m]), Run(n, h[..|h| - 1]);
            && Convicts(slept, w.snap, w.now, w.froze, i) == Convicts(ticked, w.snap, w.now, w.froze, i)
            && Returns(slept, w.snap, i) == Returns(ticked, w.snap, i)
            && NextRow(slept.rows[i], w.snap, w.froze, i) == NextRow(ticked.rows[i], w.snap, w.froze, i)
  {
    SleptRow(n, h, m, i);
    NoneInBetween(n, h, m, i);
    var w := h[|h| - 1];
    var slept, ticked := Run(n, h[..m]), Run(n, h[..|h| - 1]);
    hide *;
    SameWake(slept, ticked, w.snap, w.now, w.froze, i);
  }

  lemma NoneInBetween(n: nat, h: seq<Moment>, m: nat, i: nat)
    requires Sound(h, n) && 0 < m < |h| && i < n && Run(n, h[..m]).idle && StillFrom(h[..|h| - 1], m, n)
    ensures forall u :: m <= u < |h| ==> !Convicted(n, h[..u], i)
  {
    hide Run, Convicted, Still;
    forall u | m <= u < |h| ensures !Convicted(n, h[..u], i) {
      SoundBefore(h, n, u);
      assert h[..u][..m] == h[..m] && forall v :: 0 <= v < u ==> h[..u][v] == h[..|h| - 1][v];
      IdleLasts(n, h[..u], m, i);
    }
  }

  /** base is never STALE_AFTER old after a turn. */
  lemma BaseIsRecent(n: nat, h: seq<Moment>)
    requires Sound(h, n) && h != []
    ensures BaseAt(n, h) < |h| && h[|h| - 1].now - h[BaseAt(n, h)].now < STALE_AFTER
  {
    TakesAre(n, h);
    if |h| > 1 {
      SoundBefore(h, n, |h| - 1);
      TakesAre(n, h[..|h| - 1]);
    }
    hide Takes, Quiet, NextRow, CountsGrow, NoneRevives;
  }

  lemma Later(h: seq<Moment>, x: nat, y: nat)
    requires Timely(h) && x < |h| && y < |h| && h[x].now < h[y].now
    ensures x < y
  {
  }

  /** A turn STALE_AFTER after turn a leaves base of a turn after a. */
  lemma BaseIsAfter(n: nat, h: seq<Moment>, a: nat)
    requires Sound(h, n) && a < |h| && h[|h| - 1].now - h[a].now >= STALE_AFTER
    ensures a < BaseAt(n, h) < |h|
  {
    BaseIsRecent(n, h);
    hide Run, BaseAt, Wide, CountsGrow, NoneRevives;
    Later(h, a, BaseAt(n, h));
  }

  /** Once base is of a turn after a, STALE_AFTER after turn u, prior is of a turn after u. */
  lemma {:induction false} PriorIsRecent(n: nat, h: seq<Moment>, u: nat, a: nat)
    requires Sound(h, n) && u <= a < |h| && h[a].now - h[u].now >= STALE_AFTER && a < BaseAt(n, h) < |h|
    ensures u < PriorAt(n, h) < |h|
    decreases |h|
  {
    hide BaseAt, PriorAt, Run, TakesAnew, CountsGrow, NoneRevives;
    var prefix := h[..|h| - 1];
    SoundBefore(h, n, |h| - 1);
    if prefix != [] {
      TakenOrKept(n, h);
      assert prefix[u] == h[u] && prefix[|prefix| - 1] == h[|h| - 2];
      InOrderOfTime(h, a, |h| - 1);
      if TakesAnew(Run(n, prefix), h[|h| - 1].now) {
        InOrderOfTime(h, a, |h| - 2);
        hide *;
        BaseIsAfter(n, prefix, u);
      } else {
        assert prefix[a] == h[a];
        hide *;
        BaseIsTaken(n, prefix);
        PriorIsRecent(n, prefix, u, a);
      }
    }
  }

  lemma TakenOrKept(n: nat, h: seq<Moment>)
    requires Wide(h, n) && |h| > 1
    ensures var prefix := h[..|h| - 1];
            if TakesAnew(Run(n, prefix), h[|h| - 1].now)
            then BaseAt(n, h) == |h| - 1 && PriorAt(n, h) == BaseAt(n, prefix)
            else BaseAt(n, h) == BaseAt(n, prefix) && PriorAt(n, h) == PriorAt(n, prefix)
  {
  }

  lemma InOrderOfTime(h: seq<Moment>, x: nat, y: nat)
    requires Timely(h) && x <= y < |h|
    ensures h[x].now <= h[y].now
  {
  }

  lemma BaseIsTaken(n: nat, h: seq<Moment>)
    requires Sound(h, n) && h != []
    ensures BaseAt(n, h) < |h|
  {
    BaseIsRecent(n, h);
  }

  /**
    A tunnel at rest lets the judge rest: once nothing has been heard and no
    stream come ready for two spans of 35 s, each between turns, it is idle.
   */
  lemma RestsInTheEnd(n: nat, h: seq<Moment>, u: nat, a: nat)
    requires Sound(h, n) && u <= a < |h| && StillFrom(h, u + 1, n)
    requires h[a].now - h[u].now >= 35_000_000_000 && h[|h| - 1].now - h[a].now >= 35_000_000_000
    ensures Run(n, h).idle
  {
    BaseIsAfter(n, h, a);
    PriorIsRecent(n, h, u, a);
    var p := PriorAt(n, h);
    IdleIs(n, h);
    hide Run, Sound, PriorAt, BaseAt, Still;
    forall k | 0 <= k < n && h[|h| - 1].snap[k].Some?
      ensures Since(h[|h| - 1].snap[k].value, TakeOf(h[p].snap[k])) < PACKETS
    {
      StillShows(n, h, u + 1, p, k);
    }
  }

  // ---- Sleeping through a freeze --------------------------------------------------------------

  /** What a stream shows after quiet turns it has shown since before them. */
  lemma {:induction false} StillShows(n: nat, h: seq<Moment>, m: nat, r: nat, k: nat)
    requires Wide(h, n) && StillFrom(h, m, n) && 0 < m <= r + 1 <= |h| && k < n && h[|h| - 1].snap[k].Some?
    ensures h[r].snap[k].Some?
    ensures var o, e := h[|h| - 1].snap[k].value, h[r].snap[k].value;
            e.a == o.a && e.count == o.count && e.heard == o.heard
    decreases |h|
  {
    if r < |h| - 1 {
      StillBefore(h, m, n);
      StillShows(n, h[..|h| - 1], m, r, k);
    }
  }

  /** A freeze takes every row afresh, so no row is older. */
  lemma {:induction false} RowNoOlder(n: nat, h: seq<Moment>, u: nat, i: nat)
    requires Wide(h, n) && u < |h| && h[u].froze && i < n
    ensures u <= RowAt(n, h, i) < |h|
    decreases |h|
  {
    if u < |h| - 1 {
      assert h[..|h| - 1][u] == h[u];
      RowNoOlder(n, h[..|h| - 1], u, i);
    }
  }

  /** Since turn r sibling k has heard what it has since the last quiet turn. */
  lemma HeardInTheWake(n: nat, h: seq<Moment>, m: nat, r: nat, k: nat)
    requires Sound(h, n) && 0 < m <= r + 1 < |h| && StillFrom(h[..|h| - 1], m, n) && k < n && h[|h| - 1].snap[k].Some?
    ensures var o := h[|h| - 1].snap[k].value; Since(o, TakeOf(h[r].snap[k])) == Since(o, TakeOf(h[|h| - 2].snap[k]))
  {
    var o, prefix := h[|h| - 1].snap[k].value, h[..|h| - 1];
    if prefix[|prefix| - 1].snap[k].Some? {
      StillShows(n, prefix, m, r, k);
    } else if h[r].snap[k].Some? && h[r].snap[k].value.a == o.a {
      GoneForGood(n, h, r + 1, k, o.a);
    }
  }

  /**
    After a freeze between quiet turns the judge that slept knows of it in the
    waking turn, the one that ticked from then on. The sleeper convicts nobody
    in that turn and reports the same returns; the other may convict, but only
    by witnesses that heard all their packets in the waking turn itself, for
    its rows count from the last quiet turn.
   */
  lemma SleepingThroughAFreeze(n: nat, h: seq<Moment>, m: nat, u: nat, i: nat)
    requires Sound(h, n) && 0 < m <= u < |h| - 1 && i < n && h[u].froze && StillFrom(h[..|h| - 1], m, n)
    ensures var w, slept, ticked := h[|h| - 1], Run(n, h[..m]), Run(n, h[..|h| - 1]);
            && !Convicts(slept, w.snap, w.now, true, i) && Returns(slept, w.snap, i) == Returns(ticked, w.snap, i)
            && (Convicts(ticked, w.snap, w.now, w.froze, i) ==>
                  forall k :: k in Vouching(ticked.rows[i].value, w.snap, w.now, i) ==>
                    Since(w.snap[k].value, TakeOf(h[|h| - 2].snap[k])) >= PACKETS)
  {
    var w, prefix := h[|h| - 1], h[..|h| - 1];
    var slept, ticked := Run(n, h[..m]), Run(n, prefix);
    SameReturns(n, h, m, i);
    RowNoOlder(n, prefix, u, i);
    var r := RowAt(n, prefix, i);
    RowIs(n, prefix, i);
    hide Run, RowAt, Sound, SameSilence, StillFrom;
    if Convicts(ticked, w.snap, w.now, w.froze, i) {
      forall k | k in Vouching(ticked.rows[i].value, w.snap, w.now, i)
        ensures Since(w.snap[k].value, TakeOf(h[|h| - 2].snap[k])) >= PACKETS
      {
        HeardInTheWake(n, h, m, r, k);
      }
    }
  }

  lemma SameReturns(n: nat, h: seq<Moment>, m: nat, i: nat)
    requires Sound(h, n) && 0 < m < |h| && i < n && StillFrom(h[..|h| - 1], m, n)
    ensures Returns(Run(n, h[..m]), h[|h| - 1].snap, i) == Returns(Run(n, h[..|h| - 1]), h[|h| - 1].snap, i)
  {
    var prefix, w := h[..|h| - 1], h[|h| - 1];
    RowSession(n, prefix, i);
    RowSession(n, h[..m], i);
    hide Run;
    if prefix[|prefix| - 1].snap[i].Some? {
      StillShows(n, prefix, m, m - 1, i);
    } else if w.snap[i].Some? && h[m - 1].snap[i].Some? && h[m - 1].snap[i].value.a == w.snap[i].value.a {
      GoneForGood(n, h, m, i, w.snap[i].value.a);
    }
  }

  /** Of a row that stayed or of a stream gone since, the waking turn makes the same. */
  lemma SameWake(slept: Judge, ticked: Judge, snap: Snap, now: int, froze: bool, i: nat)
    requires Shaped(slept, |snap|) && Shaped(ticked, |snap|) && i < |snap|
    requires StayedOrGone(slept.rows[i], ticked.rows[i], snap[i])
    ensures Convicts(slept, snap, now, froze, i) == Convicts(ticked, snap, now, froze, i)
    ensures Returns(slept, snap, i) == Returns(ticked, snap, i)
    ensures NextRow(slept.rows[i], snap, froze, i) == NextRow(ticked.rows[i], snap, froze, i)
  {
    hide Takes;
  }

  ghost predicate StayedOrGone(slept: Option<Row>, ticked: Option<Row>, o: Option<Obs>) {
    || ticked == slept
    || (ticked.None? && slept.Some? && (o.Some? ==> slept.value.a != o.value.a))
  }

  lemma SleptRow(n: nat, h: seq<Moment>, m: nat, i: nat)
    requires Sound(h, n) && 0 < m < |h| && i < n && StillFrom(h[..|h| - 1], m, n) && AwakeFrom(h[..|h| - 1], m)
    ensures StayedOrGone(Run(n, h[..m]).rows[i], Run(n, h[..|h| - 1]).rows[i], h[|h| - 1].snap[i])
  {
    hide *;
    var prefix := h[..|h| - 1];
    SoundBefore(h, n, |h| - 1);
    SoundIsWide(prefix, n);
    assert prefix[..m] == h[..m];
    RowsStay(n, prefix, m, i);
    GoneRow(n, h, m, i);
  }

  lemma GoneRow(n: nat, h: seq<Moment>, m: nat, i: nat)
    requires Sound(h, n) && 0 < m < |h| && i < n && RowStays(n, h[..|h| - 1], m, i)
    ensures StayedOrGone(Run(n, h[..m]).rows[i], Run(n, h[..|h| - 1]).rows[i], h[|h| - 1].snap[i])
  {
    RowSession(n, h[..m], i);
    var prefix := h[..|h| - 1];
    assert prefix[..m] == h[..m];
    hide Run, Sound;
    var row := Run(n, h[..m]).rows[i];
    if row.Some? && prefix[|prefix| - 1].snap[i].None? && h[|h| - 1].snap[i].Some? {
      GoneForGood(n, h, m, i, row.value.a);
    }
  }

  lemma RowSession(n: nat, h: seq<Moment>, i: nat)
    requires h != [] && Wide(h, n) && i < n
    ensures var row, o := Run(n, h).rows[i], h[|h| - 1].snap[i];
            (row.None? <==> o.None?) && (row.Some? ==> row.value.a == o.value.a && row.value.heard == o.value.heard)
  {
    RowIs(n, h, i);
  }

  /** A session that has gone while the judge slept is not the one that wakes it. */
  lemma GoneForGood(n: nat, h: seq<Moment>, m: nat, i: nat, a: StreamActivity)
    requires Sound(h, n) && 0 < m < |h| - 1 && i < n
    requires h[m - 1].snap[i].Some? && h[m - 1].snap[i].value.a == a && h[|h| - 2].snap[i].None?
    requires h[|h| - 1].snap[i].Some?
    ensures h[|h| - 1].snap[i].value.a != a
  {
    assert In(h, m - 1, i, a);
    assert !In(h, |h| - 2, i, a);
    assert In(h, |h| - 1, i, a) <==> h[|h| - 1].snap[i].value.a == a;
  }

  // ---- Each verdict has one return at most ------------------------------------------------------

  /** The mark the verdicts of h have left on session a of stream i, 0 if none. */
  ghost function MarkOf(n: nat, h: seq<Moment>, i: nat, a: StreamActivity): int
    requires Wide(h, n) && i < n
    decreases |h|
  {
    if h == [] then 0
    else if Convicted(n, h, i) && h[|h| - 1].snap[i].value.a == a then h[|h| - 1].snap[i].value.heard
    else MarkOf(n, h[..|h| - 1], i, a)
  }

  /** When session a of stream i was last seen to have heard, 0 if it was never seen. */
  ghost function LastHeard(h: seq<Moment>, i: nat, a: StreamActivity): int
    decreases |h|
  {
    if h == [] then 0
    else if In(h, |h| - 1, i, a) then h[|h| - 1].snap[i].value.heard
    else LastHeard(h[..|h| - 1], i, a)
  }

  ghost function Verdicts(n: nat, h: seq<Moment>, i: nat, a: StreamActivity): nat
    requires Wide(h, n) && i < n
    decreases |h|
  {
    if h == [] then 0
    else Verdicts(n, h[..|h| - 1], i, a) + if Convicted(n, h, i) && h[|h| - 1].snap[i].value.a == a then 1 else 0
  }

  ghost function Returned(n: nat, h: seq<Moment>, i: nat, a: StreamActivity): nat
    requires Wide(h, n) && i < n
    decreases |h|
  {
    if h == [] then 0
    else
      Returned(n, h[..|h| - 1], i, a)
        + if Returns(Run(n, h[..|h| - 1]), h[|h| - 1].snap, i) && h[|h| - 1].snap[i].value.a == a then 1 else 0
  }

  /** The last turn sees the mark its verdicts have left, and a session's last packet no earlier than before. */
  ghost predicate SeesTrue(n: nat, h: seq<Moment>, i: nat)
    requires h != [] && Wide(h, n) && i < n
  {
    var o := h[|h| - 1].snap[i];
    o.Some? ==> 0 < o.value.heard && LastHeard(h[..|h| - 1], i, o.value.a) <= o.value.heard
                && o.value.mark == MarkOf(n, h[..|h| - 1], i, o.value.a)
  }

  /** Session a of stream i is in the silence its last verdict was given for. */
  ghost predicate Pending(n: nat, h: seq<Moment>, i: nat, a: StreamActivity)
    requires Wide(h, n) && i < n
  {
    LastHeard(h, i, a) != 0 && LastHeard(h, i, a) == MarkOf(n, h, i, a)
  }

  ghost function Bit(b: bool): nat { if b then 1 else 0 }

  lemma RowHeard(n: nat, h: seq<Moment>, i: nat, a: StreamActivity)
    requires Wide(h, n) && i < n && Run(n, h).rows[i].Some? && Run(n, h).rows[i].value.a == a
    ensures Run(n, h).rows[i].value.heard == LastHeard(h, i, a)
  {
    if h != [] { RowSession(n, h, i); }
  }

  lemma ReturnStep(n: nat, h: seq<Moment>, i: nat, a: StreamActivity)
    requires h != [] && Wide(h, n) && i < n && SeesTrue(n, h, i)
    requires |h| > 1 ==> SeesTrue(n, h[..|h| - 1], i)
    requires MarkOf(n, h[..|h| - 1], i, a) <= LastHeard(h[..|h| - 1], i, a)
    ensures MarkOf(n, h, i, a) <= LastHeard(h, i, a)
    ensures Returned(n, h, i, a) + Bit(Pending(n, h, i, a)) - Verdicts(n, h, i, a)
         <= Returned(n, h[..|h| - 1], i, a) + Bit(Pending(n, h[..|h| - 1], i, a)) - Verdicts(n, h[..|h| - 1], i, a)
  {
    var o := h[|h| - 1].snap[i];
    if o.Some? && o.value.a == a {
      OwnTurn(n, h, i, a);
      if Returns(Run(n, h[..|h| - 1]), h[|h| - 1].snap, i) { HeardBefore(n, h, i); }
      OwnCounts(n, h, i, a);
      hide MarkOf, LastHeard, Verdicts, Returned, Convicted, Returns, Run;
    } else {
      OtherTurn(n, h, i, a);
      hide MarkOf, LastHeard, Verdicts, Returned, Convicted, Returns, Run;
    }
  }

  lemma HeardBefore(n: nat, h: seq<Moment>, i: nat)
    requires h != [] && Wide(h, n) && i < n && (|h| > 1 ==> SeesTrue(n, h[..|h| - 1], i))
    requires Returns(Run(n, h[..|h| - 1]), h[|h| - 1].snap, i)
    ensures LastHeard(h[..|h| - 1], i, h[|h| - 1].snap[i].value.a) > 0
  {
    var prefix := h[..|h| - 1];
    if prefix != [] {
      RowSession(n, prefix, i);
      RowHeard(n, prefix, i, h[|h| - 1].snap[i].value.a);
    }
  }

  /** A turn that sees session a of stream i: what it tells of the last packet and the mark. */
  lemma OwnTurn(n: nat, h: seq<Moment>, i: nat, a: StreamActivity)
    requires h != [] && Wide(h, n) && i < n && In(h, |h| - 1, i, a)
    ensures var prefix, o := h[..|h| - 1], h[|h| - 1].snap[i].value;
            && (Convicted(n, h, i) ==> o.mark != o.heard && o.heard == LastHeard(prefix, i, a)
                                       && !Returns(Run(n, prefix), h[|h| - 1].snap, i))
            && (Returns(Run(n, prefix), h[|h| - 1].snap, i) ==>
                  o.heard != LastHeard(prefix, i, a) && o.mark == LastHeard(prefix, i, a))
  {
    var prefix := h[..|h| - 1];
    var row := Run(n, prefix).rows[i];
    if row.Some? && row.value.a == a { RowHeard(n, prefix, i, a); }
    hide Run, LastHeard, Vouching;
  }

  lemma OwnCounts(n: nat, h: seq<Moment>, i: nat, a: StreamActivity)
    requires h != [] && Wide(h, n) && i < n && In(h, |h| - 1, i, a)
    ensures var prefix, o := h[..|h| - 1], h[|h| - 1].snap[i].value;
            && LastHeard(h, i, a) == o.heard
            && MarkOf(n, h, i, a) == (if Convicted(n, h, i) then o.heard else MarkOf(n, prefix, i, a))
            && Verdicts(n, h, i, a) == Verdicts(n, prefix, i, a) + Bit(Convicted(n, h, i))
            && Returned(n, h, i, a)
               == Returned(n, prefix, i, a) + Bit(Returns(Run(n, prefix), h[|h| - 1].snap, i))
  {
    hide Convicted, Returns, Run;
  }

  lemma OtherTurn(n: nat, h: seq<Moment>, i: nat, a: StreamActivity)
    requires h != [] && Wide(h, n) && i < n && (h[|h| - 1].snap[i].Some? ==> h[|h| - 1].snap[i].value.a != a)
    ensures var prefix := h[..|h| - 1];
            && LastHeard(h, i, a) == LastHeard(prefix, i, a) && MarkOf(n, h, i, a) == MarkOf(n, prefix, i, a)
            && Verdicts(n, h, i, a) == Verdicts(n, prefix, i, a) && Returned(n, h, i, a) == Returned(n, prefix, i, a)
  {
    assert !In(h, |h| - 1, i, a);
    hide Run;
  }

  /** Over any history a session is reported heard again at most as often as it was found silent. */
  lemma {:induction false} EachVerdictReturnsOnce(n: nat, h: seq<Moment>, i: nat, a: StreamActivity)
    requires Wide(h, n) && i < n && forall u :: 0 < u <= |h| ==> SeesTrue(n, h[..u], i)
    ensures Returned(n, h, i, a) + Bit(Pending(n, h, i, a)) <= Verdicts(n, h, i, a)
    ensures MarkOf(n, h, i, a) <= LastHeard(h, i, a)
    decreases |h|
  {
    if h != [] {
      var prefix := h[..|h| - 1];
      forall u | 0 < u <= |prefix| ensures SeesTrue(n, prefix[..u], i) { assert prefix[..u] == h[..u]; }
      assert h[..|h|] == h;
      EachVerdictReturnsOnce(n, prefix, i, a);
      assert prefix == h[..|prefix|];
      ReturnStep(n, h, i, a);
      hide Run, Convicted, Returns, SeesTrue;
    }
  }

  /** A session seen at the last turn and not at the one before was never seen before. */
  lemma {:induction false} NeverSeen(h: seq<Moment>, i: nat, a: StreamActivity, m: nat)
    requires NoneRevives(h) && |h| > 1 && In(h, |h| - 1, i, a) && !In(h, |h| - 2, i, a) && m < |h|
    ensures LastHeard(h[..m], i, a) == 0
    decreases m
  {
    if m > 0 {
      assert h[..m][..m - 1] == h[..m - 1];
      NeverSeen(h, i, a, m - 1);
      assert In(h[..m], m - 1, i, a) <==> In(h, m - 1, i, a);
      assert !In(h, m - 1, i, a);
    }
  }

  lemma {:induction false} NoneUnseen(n: nat, h: seq<Moment>, i: nat, a: StreamActivity)
    requires Wide(h, n) && i < n && LastHeard(h, i, a) == 0 && forall u :: 0 < u <= |h| ==> SeesTrue(n, h[..u], i)
    ensures MarkOf(n, h, i, a) == 0 && Verdicts(n, h, i, a) == 0 && Returned(n, h, i, a) == 0
    decreases |h|
  {
    if h != [] {
      var prefix := h[..|h| - 1];
      assert h[..|h|] == h && SeesTrue(n, h, i);
      assert forall u :: 0 < u <= |prefix| ==> prefix[..u] == h[..u];
      assert !In(h, |h| - 1, i, a);
      OtherTurn(n, h, i, a);
      hide Run, Convicted, Returns, SeesTrue, MarkOf, Verdicts, Returned;
      NoneUnseen(n, prefix, i, a);
    }
  }

  /** What a turn adds to the returns and takes from the verdicts still pending is what it gives of verdicts. */
  lemma ReturnExact(n: nat, h: seq<Moment>, i: nat, a: StreamActivity)
    requires h != [] && Wide(h, n) && i < n && NoneRevives(h) && forall u :: 0 < u <= |h| ==> SeesTrue(n, h[..u], i)
    requires MarkOf(n, h[..|h| - 1], i, a) <= LastHeard(h[..|h| - 1], i, a)
    ensures Returned(n, h, i, a) + Bit(Pending(n, h, i, a)) - Verdicts(n, h, i, a)
         == Returned(n, h[..|h| - 1], i, a) + Bit(Pending(n, h[..|h| - 1], i, a)) - Verdicts(n, h[..|h| - 1], i, a)
  {
    var prefix := h[..|h| - 1];
    assert h[..|h|] == h && SeesTrue(n, h, i);
    if !In(h, |h| - 1, i, a) {
      OtherTurn(n, h, i, a);
      hide *;
    } else {
      OwnTurn(n, h, i, a);
      OwnCounts(n, h, i, a);
      ReturnIsReported(n, h, i);
      if prefix == [] || !In(h, |h| - 2, i, a) {
        if prefix != [] { NeverSeen(h, i, a, |prefix|); }
        assert forall u :: 0 < u <= |prefix| ==> prefix[..u] == h[..u];
        hide Run, Convicted, Returns, SeesTrue, MarkOf, Verdicts, Returned;
        NoneUnseen(n, prefix, i, a);
      } else {
        assert LastHeard(prefix, i, a) == h[|h| - 2].snap[i].value.heard by {
          assert prefix[|prefix| - 1] == h[|h| - 2] && In(prefix, |prefix| - 1, i, a);
        }
        assert prefix == h[..|prefix|] && SeesTrue(n, prefix, i);
        hide Run, Convicted, Returns, MarkOf, Verdicts, Returned;
      }
    }
  }

  /**
    Each verdict on a session is followed by exactly one return, once the session
    hears a packet again: over any history there are as many returns as verdicts,
    but for the one of a silence that still goes on, or that the session ended in.
   */
  lemma {:induction false} EachVerdictReturns(n: nat, h: seq<Moment>, i: nat, a: StreamActivity)
    requires Wide(h, n) && i < n && NoneRevives(h) && forall u :: 0 < u <= |h| ==> SeesTrue(n, h[..u], i)
    ensures Returned(n, h, i, a) + Bit(Pending(n, h, i, a)) == Verdicts(n, h, i, a)
    decreases |h|
  {
    if h != [] {
      var prefix := h[..|h| - 1];
      forall u | 0 < u <= |prefix| ensures SeesTrue(n, prefix[..u], i) { assert prefix[..u] == h[..u]; }
      assert NoneRevives(prefix) by { NoneRevivesBefore(h); }
      hide Run, Convicted, Returns, SeesTrue, MarkOf, Verdicts, Returned, NoneRevives;
      EachVerdictReturns(n, prefix, i, a);
      EachVerdictReturnsOnce(n, prefix, i, a);
      ReturnExact(n, h, i, a);
    } else {
      hide SeesTrue;
    }
  }

  lemma NoneRevivesBefore(h: seq<Moment>)
    requires h != [] && NoneRevives(h)
    ensures NoneRevives(h[..|h| - 1])
  {
    var g := h[..|h| - 1];
    assert forall u: nat, i: nat, a: StreamActivity :: In(g, u, i, a) <==> u < |g| && In(h, u, i, a);
  }
}
