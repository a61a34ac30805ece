/**
  The rest ladder (pkg/proxy/relay_rest.go) and its marks on disk
  (relay_rest_store.go). Times are whole milliseconds of a clock that does not go
  back, except where a lemma says any clock; JSON's syntax is left to a file that
  is either its entries or unreadable.
 */
module RelayRest {
  import opened Wrappers

  const REST_FOR := 30 * 60 * 1000
  const REST_MAX := 4 * 60 * 60 * 1000
  const RELAPSE := 2 * 60 * 60 * 1000
  const ARROW := "→"
  const VERSION := 1

  datatype Mark = Mark(until: int, rest: int, returned: bool)

  type Marks = map<string, Mark>

  function KeyOf(addr: string, peer: string): string { addr + ARROW + peer }

  /** The mark still counts at now: the relay rests, or came back less than RELAPSE ago. */
  predicate Counts(marks: Marks, key: string, now: int) { key in marks && now - marks[key].until < RELAPSE }

  // ---- The operations ------------------------------------------------------------

  /** relayResting: its answer, whether it logs the return, and the marks it leaves. */
  function RestingAnswer(marks: Marks, key: string, now: int): bool { key in marks && now < marks[key].until }
  function Returning(marks: Marks, key: string, now: int): bool {
    key in marks && now >= marks[key].until && !marks[key].returned
  }

  function AfterResting(marks: Marks, key: string, now: int): Marks {
    if Returning(marks, key, now) then marks[key := marks[key].(returned := true)]
    else if key in marks && now - marks[key].until >= RELAPSE then marks - {key}
    else marks
  }

  /** noteRelayRestingFor: how long the relay rests, doubled within RELAPSE of its return. */
  function RestLength(marks: Marks, key: string, now: int): int {
    if !Counts(marks, key, now) then REST_FOR
    else if 2 * marks[key].rest < REST_MAX then 2 * marks[key].rest
    else REST_MAX
  }

  function AfterVerdict(marks: Marks, key: string, now: int): Marks {
    var rest := RestLength(marks, key, now);
    marks[key := Mark(now + rest, rest, false)]
  }

  // ---- The file ----------------------------------------------------------------------

  datatype Entry = Entry(relay: string, server: string, until: int, rest: int, returned: bool)

  /** A file of the state directory, or what could not be read as one. */
  datatype File = File(version: int, marks: seq<Entry>) | Unreadable

  /** strings.Cut at the first arrow */
  function Cut(key: string): Option<(string, string)>
    decreases |key|
  {
    if key == "" then None
    else if key[0] == ARROW[0] then Some(("", key[1..]))
    else
      match Cut(key[1..])
      case None => None
      case Some(p) => Some(([key[0]] + p.0, p.1))
  }

  /** A relay's name holds no arrow, so the key of its mark comes apart again. */
  lemma {:induction false} CutsApart(addr: string, peer: string)
    requires ARROW[0] !in addr
    ensures Cut(KeyOf(addr, peer)) == Some((addr, peer))
    decreases |addr|
  {
    var key := KeyOf(addr, peer);
    if addr == "" {
      assert key[1..] == peer;
    } else {
      assert key[1..] == KeyOf(addr[1..], peer) && addr == [addr[0]] + addr[1..];
      CutsApart(addr[1..], peer);
    }
  }

  lemma {:induction false} CutRejoins(key: string)
    ensures Cut(key).Some? ==> KeyOf(Cut(key).value.0, Cut(key).value.1) == key
    decreases |key|
  {
    if key == "" {
    } else if key[0] == ARROW[0] {
      assert ARROW == [key[0]] && key == [key[0]] + key[1..];
    } else {
      CutRejoins(key[1..]);
      assert key == [key[0]] + key[1..];
    }
  }

  function EntryOf(key: string, m: Mark): Option<Entry> {
    match Cut(key)
    case None => None
    case Some(p) => Some(Entry(p.0, p.1, m.until, m.rest, m.returned))
  }

  /** What encodeRelayRest writes of one mark: nothing of one past its relapse window. */
  function Written(marks: Marks, key: string, now: int): Option<Entry>
    requires key in marks
  {
    if now - marks[key].until >= RELAPSE then None else EntryOf(key, marks[key])
  }

  /** decodeRelayRest's reading of one entry, with its cuts for a clock moved back. */
  function Reads(e: Entry, now: int): Option<Mark> {
    if e.relay == "" || e.server == "" || e.rest <= 0 || e.rest > REST_MAX || now - e.until >= RELAPSE then None
    else
      Some(Mark(if e.returned && e.until > now then now
                else if e.until - now > e.rest then now + e.rest
                else e.until, e.rest, e.returned))
  }

  function DecodeAll(es: seq<Entry>, now: int): Marks
    decreases |es|
  {
    if es == [] then map[]
    else
      var m, e := DecodeAll(es[..|es| - 1], now), es[|es| - 1];
      match Reads(e, now)
      case None => m
      case Some(mark) => m[KeyOf(e.relay, e.server) := mark]
  }

  function Decode(f: File, now: int): Option<Marks> {
    if f.Unreadable? || f.version != VERSION then None else Some(DecodeAll(f.marks, now))
  }

  /** es is a file of marks written at now: one entry for each mark it writes, in some order. */
  ghost predicate FileOf(es: seq<Entry>, marks: Marks, now: int) {
    && (forall i :: 0 <= i < |es| ==>
          KeyOf(es[i].relay, es[i].server) in marks
          && Written(marks, KeyOf(es[i].relay, es[i].server), now) == Some(es[i]))
    && (forall key :: key in marks && Written(marks, key, now).Some? ==> Written(marks, key, now).value in es)
  }

  // ---- Any clock ----------------------------------------------------------------------

  /** Whatever the file and the clock, a mark read back rests at most its own length from now, and one that came back stays back. */
  lemma {:induction false} ReadRestIsBounded(es: seq<Entry>, now: int, key: string)
    requires key in DecodeAll(es, now)
    ensures var m := DecodeAll(es, now)[key];
            0 < m.rest <= REST_MAX && m.until - now <= m.rest && (m.returned ==> m.until <= now)
            && now - m.until < RELAPSE
    decreases |es|
  {
    var e := es[|es| - 1];
    if key in DecodeAll(es[..|es| - 1], now) { ReadRestIsBounded(es[..|es| - 1], now, key); }
  }

  // ---- A restart is invisible -----------------------------------------------------------

  /** Nothing later tells the two apart: of each key both keep the same mark, or neither keeps one that still counts. */
  ghost predicate Alike(a: Marks, b: Marks, now: int) {
    forall key :: SameMark(a, b, key, now)
  }

  ghost predicate SameMark(a: Marks, b: Marks, key: string, now: int) {
    if Counts(a, key, now) then key in b && b[key] == a[key] else !Counts(b, key, now)
  }

  /** Alike marks stay alike as time passes, answer alike and rest alike. */
  lemma AlikeStays(a: Marks, b: Marks, key: string, now: int, later: int)
    requires Alike(a, b, now) && now <= later
    ensures Alike(a, b, later)
    ensures RestingAnswer(a, key, later) == RestingAnswer(b, key, later)
    ensures RestLength(a, key, later) == RestLength(b, key, later)
    ensures Alike(AfterResting(a, key, later), AfterResting(b, key, later), later)
    ensures Alike(AfterVerdict(a, key, later), AfterVerdict(b, key, later), later)
  {
    assert SameMark(a, b, key, now);
    forall k
      ensures SameMark(a, b, k, later) && SameMark(AfterResting(a, key, later), AfterResting(b, key, later), k, later)
      ensures SameMark(AfterVerdict(a, key, later), AfterVerdict(b, key, later), k, later)
    {
      assert SameMark(a, b, k, now) && SameMark(a, b, key, now);
    }
  }

  /** Marks as the operations leave them: of named relays and servers, no longer than the ladder, ending within their length. */
  ghost predicate Kept(marks: Marks, now: int) {
    forall key :: key in marks ==> KeptMark(key, marks[key], now)
  }

  ghost predicate KeptMark(key: string, m: Mark, now: int) {
    && Cut(key).Some? && Cut(key).value.0 != "" && Cut(key).value.1 != ""
    && 0 < m.rest <= REST_MAX && m.until - now <= m.rest && (m.returned ==> m.until <= now)
  }

  lemma KeptStays(marks: Marks, addr: string, peer: string, now: int, later: int)
    requires Kept(marks, now) && now <= later && addr != "" && peer != "" && ARROW[0] !in addr
    ensures Kept(marks, later)
    ensures Kept(AfterResting(marks, KeyOf(addr, peer), later), later)
    ensures Kept(AfterVerdict(marks, KeyOf(addr, peer), later), later)
  {
    CutsApart(addr, peer);
    hide Cut;
    forall key | key in marks ensures KeptMark(key, marks[key], later) { assert KeptMark(key, marks[key], now); }
  }

  /** A file written at an earlier time reads back as marks alike to those it was written of. */
  lemma ReadBackAlike(es: seq<Entry>, marks: Marks, saved: int, now: int)
    requires FileOf(es, marks, saved) && Kept(marks, saved) && saved <= now
    ensures Alike(marks, DecodeAll(es, now), now)
  {
    forall key ensures SameMark(marks, DecodeAll(es, now), key, now) {
      ReadBackOne(es, marks, saved, now, key);
    }
  }

  lemma ReadsWritten(marks: Marks, key: string, saved: int, now: int)
    requires key in marks && KeptMark(key, marks[key], saved) && saved <= now
    ensures Written(marks, key, saved).Some? ==>
      var e := Written(marks, key, saved).value;
      KeyOf(e.relay, e.server) == key && Reads(e, now) == if Counts(marks, key, now) then Some(marks[key]) else None
    ensures Counts(marks, key, now) ==> Written(marks, key, saved).Some?
  {
    CutRejoins(key);
    hide Cut, KeyOf;
  }

  lemma ReadBackOne(es: seq<Entry>, marks: Marks, saved: int, now: int, key: string)
    requires FileOf(es, marks, saved) && Kept(marks, saved) && saved <= now
    ensures SameMark(marks, DecodeAll(es, now), key, now)
  {
    if key in marks {
      assert KeptMark(key, marks[key], saved);
      ReadsWritten(marks, key, saved, now);
    }
    hide KeptMark, Written, Reads, KeyOf;
    DecodedAll(es, marks, saved, now, key);
  }

  /** What the entries of a file come to for one key: its mark, if it is written and still counts. */
  lemma {:induction false} DecodedAll(es: seq<Entry>, marks: Marks, saved: int, now: int, key: string)
    requires Kept(marks, saved) && saved <= now
    requires forall i :: 0 <= i < |es| ==>
      KeyOf(es[i].relay, es[i].server) in marks && Written(marks, KeyOf(es[i].relay, es[i].server), saved) == Some(es[i])
    ensures key in DecodeAll(es, now) ==> Counts(marks, key, now) && DecodeAll(es, now)[key] == marks[key]
    ensures key in marks && Written(marks, key, saved).Some? && Written(marks, key, saved).value in es && Counts(marks, key, now)
      ==> key in DecodeAll(es, now)
    decreases |es|
  {
    if es != [] {
      var prior, e := es[..|es| - 1], es[|es| - 1];
      DecodedAll(prior, marks, saved, now, key);
      var k := KeyOf(e.relay, e.server);
      assert KeptMark(k, marks[k], saved);
      ReadsWritten(marks, k, saved, now);
      if key in marks && Written(marks, key, saved).Some? {
        assert KeptMark(key, marks[key], saved);
        ReadsWritten(marks, key, saved, now);
      }
      hide KeptMark, Written, Reads, KeyOf;
      assert es == prior + [e];
    }
  }

  // ---- Whole runs -----------------------------------------------------------------------

  datatype Op =
    | Ask(addr: string, peer: string, now: int)
    | Judge(addr: string, peer: string, now: int)
    | Restart(now: int)
    | Reload(now: int)

  /** A process starts, or a proxy does within the process; either loads the file. */
  predicate Starts(op: Op) { op.Restart? || op.Reload? }

  datatype Answer = Rests(resting: bool) | RestsFor(rest: int) | Nothing

  /** What the operation tells its caller. */
  function AnswerTo(marks: Marks, op: Op): Answer {
    match op
    case Ask(addr, peer, now) => Rests(RestingAnswer(marks, KeyOf(addr, peer), now))
    case Judge(addr, peer, now) => RestsFor(RestLength(marks, KeyOf(addr, peer), now))
    case _ => Nothing
  }

  /** The marks of a process that never restarts. */
  function Ideal(ops: seq<Op>): Marks
    decreases |ops|
  {
    if ops == [] then map[] else IdealStep(Ideal(ops[..|ops| - 1]), ops[|ops| - 1])
  }

  function IdealStep(marks: Marks, op: Op): Marks {
    match op
    case Ask(addr, peer, now) => AfterResting(marks, KeyOf(addr, peer), now)
    case Judge(addr, peer, now) => AfterVerdict(marks, KeyOf(addr, peer), now)
    case _ => marks
  }

  /** The marks in memory and the file, with what the file was written of and when. */
  datatype World = World(marks: Marks, es: seq<Entry>, saved: Marks, savedAt: int)

  ghost predicate SavedNow(v: World, now: int) {
    FileOf(v.es, v.marks, now) && v.saved == v.marks && v.savedAt == now
  }

  /** op takes w to v: every verdict and every return is saved, and a start reads the file. */
  ghost predicate Follows(w: World, op: Op, v: World) {
    match op
    case Ask(addr, peer, now) =>
      && v.marks == IdealStep(w.marks, op)
      && if Returning(w.marks, KeyOf(addr, peer), now) then SavedNow(v, now)
         else v.es == w.es && v.saved == w.saved && v.savedAt == w.savedAt
    case Judge(_, _, now) => v.marks == IdealStep(w.marks, op) && SavedNow(v, now)
    case Restart(now) => v == w.(marks := DecodeAll(w.es, now))
    case Reload(now) => v == w.(marks := DecodeAll(w.es, now) + w.marks)
  }

  predicate Named(op: Op) {
    Starts(op) || (op.addr != "" && op.peer != "" && ARROW[0] !in op.addr)
  }

  /** The marks in memory, those of a process that never restarted, and the file are all alike. */
  ghost predicate Holds(w: World, ideal: Marks, now: int) {
    && Alike(w.marks, ideal, now) && Alike(w.saved, w.marks, now)
    && Kept(w.marks, now) && Kept(w.saved, w.savedAt) && FileOf(w.es, w.saved, w.savedAt) && w.savedAt <= now
  }

  lemma AlikeChains(a: Marks, b: Marks, c: Marks, now: int)
    requires Alike(a, b, now) && Alike(b, c, now)
    ensures Alike(a, c, now) && Alike(b, a, now)
  {
    forall key ensures SameMark(a, c, key, now) && SameMark(b, a, key, now) {
      assert SameMark(a, b, key, now) && SameMark(b, c, key, now);
    }
  }

  /** Dropping a mark past its window tells nobody anything. */
  lemma DropIsAlike(marks: Marks, key: string, now: int)
    requires !Returning(marks, key, now)
    ensures Alike(marks, AfterResting(marks, key, now), now)
  {
    forall k ensures SameMark(marks, AfterResting(marks, key, now), k, now) {}
  }

  lemma AlikeSelf(marks: Marks, now: int)
    ensures Alike(marks, marks, now)
  {
    forall k ensures SameMark(marks, marks, k, now) {}
  }

  lemma ReadKept(es: seq<Entry>, saved: Marks, savedAt: int, now: int)
    requires FileOf(es, saved, savedAt) && Kept(saved, savedAt) && savedAt <= now
    ensures Kept(DecodeAll(es, now), now)
  {
    forall key | key in DecodeAll(es, now) ensures KeptMark(key, DecodeAll(es, now)[key], now) {
      ReadBackOne(es, saved, savedAt, now, key);
      ReadRestIsBounded(es, now, key);
      assert KeptMark(key, saved[key], savedAt);
    }
  }

  /** The file a proxy start merges in tells nothing new. */
  lemma ReloadIsAlike(w: World, ideal: Marks, now: int, later: int)
    requires Holds(w, ideal, now) && now <= later
    ensures Alike(DecodeAll(w.es, later) + w.marks, w.marks, later)
  {
    ReadBackAlike(w.es, w.saved, w.savedAt, later);
    forall key ensures SameMark(DecodeAll(w.es, later) + w.marks, w.marks, key, later) {
      assert SameMark(w.saved, w.marks, key, now) && SameMark(w.saved, DecodeAll(w.es, later), key, later);
    }
  }

  lemma KeptMerged(a: Marks, b: Marks, now: int, later: int)
    requires Kept(a, later) && Kept(b, now) && now <= later
    ensures Kept(a + b, later)
  {
    hide Cut;
    forall key | key in a + b ensures KeptMark(key, (a + b)[key], later) {
      if key in b { assert KeptMark(key, b[key], now); } else { assert KeptMark(key, a[key], later); }
    }
  }

  lemma HoldsStep(w: World, ideal: Marks, now: int, op: Op, v: World)
    requires Holds(w, ideal, now) && now <= op.now && Named(op) && Follows(w, op, v)
    ensures Holds(v, IdealStep(ideal, op), op.now)
    ensures !Starts(op) ==> AnswerTo(w.marks, op) == AnswerTo(ideal, op)
  {
    hide Alike, Kept, FileOf, KeyOf, RestLength, RestingAnswer;
    var key := if Starts(op) then "" else KeyOf(op.addr, op.peer);
    AlikeStays(w.marks, ideal, key, now, op.now);
    AlikeStays(w.saved, w.marks, key, now, op.now);
    AlikeSelf(v.marks, op.now);
    if op.Restart? {
      ReadBackAlike(w.es, w.saved, w.savedAt, op.now);
      ReadKept(w.es, w.saved, w.savedAt, op.now);
      AlikeChains(w.saved, w.marks, ideal, op.now);
      AlikeChains(w.saved, v.marks, v.marks, op.now);
      AlikeChains(v.marks, w.saved, ideal, op.now);
    } else if op.Reload? {
      ReloadIsAlike(w, ideal, now, op.now);
      ReadKept(w.es, w.saved, w.savedAt, op.now);
      KeptMerged(DecodeAll(w.es, op.now), w.marks, now, op.now);
      AlikeChains(v.marks, w.marks, ideal, op.now);
      AlikeSelf(w.marks, op.now);
      AlikeChains(v.marks, w.marks, w.marks, op.now);
      AlikeChains(w.saved, w.marks, v.marks, op.now);
    } else {
      KeptStays(w.marks, op.addr, op.peer, now, op.now);
      if op.Ask? && !Returning(w.marks, key, op.now) {
        DropIsAlike(w.marks, key, op.now);
        AlikeChains(w.saved, w.marks, v.marks, op.now);
      }
    }
  }

  ghost predicate RunOf(ws: seq<World>, ops: seq<Op>, start: int) {
    && |ws| == |ops| + 1 && ws[0] == World(map[], [], map[], start)
    && (forall i :: 0 <= i < |ops| ==> Named(ops[i]) && Follows(ws[i], ops[i], ws[i + 1]))
    && (forall i :: 0 <= i < |ops| ==> (if i == 0 then start else ops[i - 1].now) <= ops[i].now)
  }

  /**
    A restart is invisible: however often the process starts again, or a proxy
    within it, between any two operations, every answer and every rest is the
    one of a process that never did.
   */
  lemma {:induction false} RestartsAreInvisible(ws: seq<World>, ops: seq<Op>, start: int, i: nat)
    requires RunOf(ws, ops, start) && i <= |ops|
    ensures Holds(ws[i], Ideal(ops[..i]), if i == 0 then start else ops[i - 1].now)
    ensures i < |ops| && !Starts(ops[i]) ==> AnswerTo(ws[i].marks, ops[i]) == AnswerTo(Ideal(ops[..i]), ops[i])
  {
    hide Holds, Follows, Ideal, AnswerTo;
    if i == 0 {
      NewProcessHolds(start);
      assert Ideal(ops[..0]) == map[] by { IdealNone(); assert ops[..0] == []; }
    } else {
      var k := i - 1;
      RestartsAreInvisible(ws, ops, start, k);
      assert Named(ops[k]) && Follows(ws[k], ops[k], ws[k + 1]);
      assert (if k == 0 then start else ops[k - 1].now) <= ops[k].now;
      HoldsStep(ws[i - 1], Ideal(ops[..i - 1]), if i == 1 then start else ops[i - 2].now, ops[i - 1], ws[i]);
      IdealMore(ops, i - 1);
    }
    if i < |ops| {
      HoldsStep(ws[i], Ideal(ops[..i]), if i == 0 then start else ops[i - 1].now, ops[i], ws[i + 1]);
    }
  }

  lemma IdealNone()
    ensures Ideal([]) == map[]
  {
  }

  lemma IdealMore(ops: seq<Op>, i: nat)
    requires i < |ops|
    ensures Ideal(ops[..i + 1]) == IdealStep(Ideal(ops[..i]), ops[i])
  {
    assert ops[..i + 1][..i] == ops[..i];
  }

  lemma NewProcessHolds(start: int)
    ensures Holds(World(map[], [], map[], start), map[], start)
  {
    AlikeSelf(map[], start);
  }

  // ---- The ladder ---------------------------------------------------------------------------

  /** The length of a relay's rest after n relapses. */
  function Rung(n: nat): int { if n == 0 then REST_FOR else if 2 * Rung(n - 1) < REST_MAX then 2 * Rung(n - 1) else REST_MAX }

  lemma {:induction false} RungsAre(n: nat)
    ensures Rung(0) == 30 * 60_000 && Rung(1) == 60 * 60_000 && Rung(2) == 120 * 60_000
    ensures n >= 3 ==> Rung(n) == 240 * 60_000
  {
    if n > 3 { RungsAre(n - 1); }
  }

  /** How many verdicts on the path have come in a row, each within RELAPSE of the return from the one before. */
  function Relapses(ops: seq<Op>, key: string): nat
    decreases |ops|
  {
    if ops == [] then 0
    else
      var prior, op := ops[..|ops| - 1], ops[|ops| - 1];
      if op.Judge? && KeyOf(op.addr, op.peer) == key && Counts(Ideal(prior), key, op.now) then Relapses(prior, key) + 1
      else if op.Judge? && KeyOf(op.addr, op.peer) == key then 0
      else Relapses(prior, key)
  }

  /** Every rest is 30 minutes, doubled for each relapse in a row, up to 4 hours. */
  lemma {:induction false} RestsClimbTheLadder(ops: seq<Op>, key: string)
    ensures key in Ideal(ops) ==> Ideal(ops)[key].rest == Rung(Relapses(ops, key))
    decreases |ops|
  {
    if ops != [] {
      RestsClimbTheLadder(ops[..|ops| - 1], key);
      hide KeyOf;
    }
  }

  // ---- A return is for good ----------------------------------------------------------------------

  lemma {:induction false} ReadsReturned(es: seq<Entry>, marks: Marks, saved: int, now: int, key: string)
    requires forall i :: 0 <= i < |es| ==>
      KeyOf(es[i].relay, es[i].server) in marks && Written(marks, KeyOf(es[i].relay, es[i].server), saved) == Some(es[i])
    requires key in marks && marks[key].returned && key in DecodeAll(es, now)
    ensures DecodeAll(es, now)[key].returned
    decreases |es|
  {
    hide KeyOf;
    var prior := es[..|es| - 1];
    if key in DecodeAll(prior, now) { ReadsReturned(prior, marks, saved, now, key); }
  }

  /**
    A relay found to have come back from its rest stays back: the return is in
    the marks and in the file, and whatever clock reads the file, back in time
    even, the relay does not rest.
   */
  lemma ReturnIsForGood(w: World, ideal: Marks, now: int, op: Op, v: World, clock: int)
    requires Holds(w, ideal, now) && now <= op.now && Named(op) && Follows(w, op, v) && op.Ask?
    requires var key := KeyOf(op.addr, op.peer); Counts(w.marks, key, op.now) && !RestingAnswer(w.marks, key, op.now)
    ensures var key := KeyOf(op.addr, op.peer);
            key in v.marks && v.marks[key].returned && !RestingAnswer(DecodeAll(v.es, clock), key, clock)
  {
    var key := KeyOf(op.addr, op.peer);
    AlikeStays(w.saved, w.marks, key, now, op.now);
    assert SameMark(w.saved, w.marks, key, op.now);
    hide Alike, Kept, KeyOf;
    if key in DecodeAll(v.es, clock) {
      ReadsReturned(v.es, v.saved, v.savedAt, clock, key);
      ReadRestIsBounded(v.es, clock, key);
    }
  }

  // ---- What is answered, by the verdicts alone ---------------------------------------------------

  /** The last verdict on the path: when it came, and how many relapses in a row it was, each within 2 hours of the return. */
  function LastVerdict(ops: seq<Op>, key: string): Option<(int, nat)>
    decreases |ops|
  {
    if ops == [] then None
    else
      var prior, op := LastVerdict(ops[..|ops| - 1], key), ops[|ops| - 1];
      if op.Judge? && KeyOf(op.addr, op.peer) == key then Some((op.now, if Relapsed(prior, op.now) then prior.value.1 + 1 else 0))
      else prior
  }

  /** now is within 2 hours of the end of the rest that verdict began, or before it. */
  predicate Relapsed(verdict: Option<(int, nat)>, now: int) {
    verdict.Some? && now < verdict.value.0 + Rung(verdict.value.1) + 2 * 3_600_000
  }

  ghost predicate InOrderOfTime(ops: seq<Op>) {
    forall i, j :: 0 <= i < j < |ops| ==> ops[i].now <= ops[j].now
  }

  /** The mark of a path is its last verdict's, and gone only once that no longer counts. */
  ghost predicate MarkIs(marks: Marks, key: string, verdict: Option<(int, nat)>, now: int) {
    if key in marks
    then && verdict.Some? && marks[key].rest == Rung(verdict.value.1)
         && marks[key].until == verdict.value.0 + Rung(verdict.value.1)
    else !Relapsed(verdict, now)
  }

  lemma {:induction false} MarkIsOfTheVerdict(ops: seq<Op>, key: string, now: int)
    requires InOrderOfTime(ops) && forall i :: 0 <= i < |ops| ==> ops[i].now <= now
    ensures MarkIs(Ideal(ops), key, LastVerdict(ops, key), now)
    decreases |ops|
  {
    if ops != [] {
      var prior, op := ops[..|ops| - 1], ops[|ops| - 1];
      MarkIsOfTheVerdict(prior, key, op.now);
      MarkIsOfTheVerdict(prior, key, now);
      hide KeyOf;
    }
  }

  /**
    A relay rests from a verdict for its rest, and for no other time; and a
    verdict rests it for 30 minutes, or for the next rung if it comes within 2
    hours of the end of the rest before. Whatever was asked in between, and
    however often, changes neither.
   */
  lemma AnsweredByVerdicts(ops: seq<Op>, op: Op)
    requires InOrderOfTime(ops) && !Starts(op) && forall i :: 0 <= i < |ops| ==> ops[i].now <= op.now
    ensures var last := LastVerdict(ops, KeyOf(op.addr, op.peer));
            AnswerTo(Ideal(ops), op) ==
            if op.Ask? then Rests(last.Some? && op.now < last.value.0 + Rung(last.value.1))
            else RestsFor(Rung(if Relapsed(last, op.now) then last.value.1 + 1 else 0))
  {
    hide Ideal, LastVerdict, KeyOf, InOrderOfTime, MarkIs, RestingAnswer, RestLength, Relapsed, Rung;
    var key := KeyOf(op.addr, op.peer);
    MarkIsOfTheVerdict(ops, key, op.now);
    AnswerOfMark(Ideal(ops), key, LastVerdict(ops, key), op.now);
  }

  lemma AnswerOfMark(marks: Marks, key: string, verdict: Option<(int, nat)>, now: int)
    requires MarkIs(marks, key, verdict, now)
    ensures RestingAnswer(marks, key, now) <==> verdict.Some? && now < verdict.value.0 + Rung(verdict.value.1)
    ensures RestLength(marks, key, now) == Rung(if Relapsed(verdict, now) then verdict.value.1 + 1 else 0)
  {
  }

  /** The same of any run, whatever restarts fall in it. */
  lemma RunAnsweredByVerdicts(ws: seq<World>, ops: seq<Op>, start: int, i: nat)
    requires RunOf(ws, ops, start) && i < |ops| && !Starts(ops[i])
    ensures var last := LastVerdict(ops[..i], KeyOf(ops[i].addr, ops[i].peer));
            AnswerTo(ws[i].marks, ops[i]) ==
            if ops[i].Ask? then Rests(last.Some? && ops[i].now < last.value.0 + Rung(last.value.1))
            else RestsFor(Rung(if Relapsed(last, ops[i].now) then last.value.1 + 1 else 0))
  {
    RestartsAreInvisible(ws, ops, start, i);
    forall a, b | 0 <= a < b <= i ensures ops[a].now <= ops[b].now { OpsInTime(ws, ops, start, a, b); }
    hide RunOf;
    AnsweredByVerdicts(ops[..i], ops[i]);
  }

  lemma {:induction false} OpsInTime(ws: seq<World>, ops: seq<Op>, start: int, a: nat, b: nat)
    requires RunOf(ws, ops, start) && a <= b < |ops|
    ensures ops[a].now <= ops[b].now
    decreases b
  {
    if a < b { OpsInTime(ws, ops, start, a, b - 1); }
  }

  // ---- The marks as they are kept -------------------------------------------------------------

  class RelayRests {
    var peer: string
    var marks: Marks
    /** relay_rest.json as it was last written, or whatever is found in its place. */
    var file: File

    constructor (file: File)
      ensures marks == map[] && peer == "" && this.file == file
    {
      peer, marks, this.file := "", map[], file;
    }

    method SetPeer(server: string)
      modifies this`peer
      ensures peer == server
    {
      peer := server;
    }

    method RelayResting(addr: string, now: int) returns (resting: bool)
      modifies this`marks, this`file
      ensures resting == RestingAnswer(old(marks), KeyOf(addr, peer), now)
      ensures marks == AfterResting(old(marks), KeyOf(addr, peer), now)
      ensures if Returning(old(marks), KeyOf(addr, peer), now)
              then file.File? && file.version == VERSION && FileOf(file.marks, marks, now) else file == old(file)
    {
      var key := KeyOf(addr, peer);
      if key !in marks { return false; }
      var m := marks[key];
      if now < m.until { return true; }
      resting := false;
      if !m.returned {
        marks := marks[key := m.(returned := true)];
        Save(now);
      } else if now - m.until >= RELAPSE {
        marks := marks - {key};
      }
    }

    /** A judge whose proxy has ended rests nothing. */
    method NoteRelayRestingFor(alive: bool, addr: string, now: int) returns (rest: int, rested: bool)
      modifies this`marks, this`file
      ensures rested == alive
      ensures if alive
              then rest == RestLength(old(marks), KeyOf(addr, peer), now)
                   && marks == AfterVerdict(old(marks), KeyOf(addr, peer), now)
                   && file.File? && file.version == VERSION && FileOf(file.marks, marks, now)
              else marks == old(marks) && file == old(file)
    {
      if !alive { return 0, false; }
      var key := KeyOf(addr, peer);
      rest := REST_FOR;
      if key in marks && now - marks[key].until < RELAPSE {
        rest := if 2 * marks[key].rest < REST_MAX then 2 * marks[key].rest else REST_MAX;
      }
      marks := marks[key := Mark(now + rest, rest, false)];
      Save(now);
      rested := true;
    }

    /** encodeRelayRest: one entry for each mark of a named path whose window has not passed. */
    method Encode(now: int) returns (es: seq<Entry>)
      ensures FileOf(es, marks, now)
    {
      es := [];
      var todo := marks.Keys;
      while todo != {}
        invariant todo <= marks.Keys
        invariant forall i :: 0 <= i < |es| ==>
          KeyOf(es[i].relay, es[i].server) in marks && Written(marks, KeyOf(es[i].relay, es[i].server), now) == Some(es[i])
        invariant forall key :: key in marks && key !in todo && Written(marks, key, now).Some? ==>
          Written(marks, key, now).value in es
        decreases |todo|
      {
        var key :| key in todo;
        todo := todo - {key};
        CutRejoins(key);
        hide Cut, KeyOf;
        var apart := Cut(key);
        var m := marks[key];
        if apart.None? || now - m.until >= RELAPSE { continue; }
        es := es + [Entry(apart.value.0, apart.value.1, m.until, m.rest, m.returned)];
      }
    }

    method Save(now: int)
      modifies this`file
      ensures file.File? && file.version == VERSION && FileOf(file.marks, marks, now)
    {
      var es := Encode(now);
      file := File(VERSION, es);
    }

    /** decodeRelayRest */
    method DecodeFile(now: int) returns (disk: Option<Marks>)
      ensures disk == Decode(file, now)
    {
      if file.Unreadable? || file.version != VERSION { return None; }
      var m: Marks := map[];
      for i := 0 to |file.marks|
        invariant m == DecodeAll(file.marks[..i], now)
      {
        assert file.marks[..i + 1][..i] == file.marks[..i];
        var e := file.marks[i];
        if e.relay == "" || e.server == "" || e.rest <= 0 || e.rest > REST_MAX { continue; }
        var until := e.until;
        if now - until >= RELAPSE { continue; }
        if e.returned && until > now {
          until := now;
        } else if until - now > e.rest {
          until := now + e.rest;
        }
        m := m[KeyOf(e.relay, e.server) := Mark(until, e.rest, e.returned)];
      }
      assert file.marks[..|file.marks|] == file.marks;
      disk := Some(m);
    }

    /** loadRelayRest: what this process knows wins over the file. */
    method Load(now: int)
      modifies this`marks
      ensures marks == (if Decode(file, now).Some? then Decode(file, now).value else map[]) + old(marks)
    {
      var disk := DecodeFile(now);
      if disk.None? { return; }
      var known := marks;
      var todo := disk.value.Keys;
      while todo != {}
        invariant todo <= disk.value.Keys
        invariant forall key :: key in marks <==> key in known || (key in disk.value && key !in todo)
        invariant forall key :: key in marks ==> marks[key] == if key in known then known[key] else disk.value[key]
        decreases |todo|
      {
        var key :| key in todo;
        todo := todo - {key};
        if key !in marks { marks := marks[key := disk.value[key]]; }
      }
    }
  }
}
