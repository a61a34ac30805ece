/**
  The workers that share the dark path (pkg/proxy/dark_scout.go, parkInTheDark of
  path_revival.go, the scout's part of runWorker): each is sequential, and any
  worker may take any step it has come to while the clock, the relays heard, a
  light and another network come in between.
 */
module DarkScout {
  import opened Wrappers
  import opened DarkPath

  const EVIDENCE_MIN := 2_000_000_000

  /**
    Where a worker stands. onTurn is the scout turn it is in, None for an attempt
    of its own; seen is how many proofs had been announced when its park began.
   */
  datatype Phase =
    | Free
    | Taken(turn: nat)
    | Looked(onTurn: Option<nat>, epoch: nat)
    | Ready(onTurn: Option<nat>, epoch: nat)
    | Dialing(onTurn: Option<nat>, epoch: nat, start: int, mark: nat)
    | Failed(epoch: nat, start: int, mark: nat)
    | Parking
    | Parked(seen: nat)
    | AtLimit(seen: nat)
    | Leaving
    | Gone

  /**
    turn numbers the latest turn taken; dialed is the turn dialing now whose
    verdict is still to have a say. A session's proof lights the path (lit counts
    those) and then wakes the parked (announced counts those); litAtDial is lit
    as the turn dialing began to.
   */
  datatype World = World(p: Path, now: int, workers: map<nat, Phase>, turn: nat, dialed: Option<nat>,
                         lit: nat, announced: nat, litAtDial: nat)

  function At(w: World, s: nat): Phase { if s in w.workers then w.workers[s] else Free }

  function TurnOf(ph: Phase): Option<nat> {
    match ph
    case Taken(n) => Some(n)
    case Looked(t, _) => t
    case Ready(t, _) => t
    case Dialing(t, _, _, _) => t
    case _ => None
  }

  /** The worker is in parkInTheDark. */
  predicate InPark(ph: Phase) { ph.Parked? || ph.AtLimit? }

  /** The worker may stand in line. */
  predicate MayStand(ph: Phase) { InPark(ph) || ph.Leaving? }

  datatype Event =
    | Tick(passed: nat)
    | Heard
    | Lit
    | Proves
    | Announces
    | NewPath
    | Look(s: nat)
    | Check(s: nat)
    | Dial(s: nat)
    | End(s: nat, dark: bool, froze: bool)
    | FindByStall(s: nat, mark: nat, froze: bool)
    | FindBySilence(s: nat, froze: bool)
    | FindHolding(s: nat)
    | Resume(s: nat)
    | Park(s: nat)
    | Wait(s: nat)
    | Take(s: nat)
    | Release(s: nat)
    | ByProof(s: nat)
    | ByHearing(s: nat)
    | LimitDark(s: nat)
    | LimitScouted(s: nat)
    | StopWait(s: nat)
    | Quit(s: nat)

  predicate Enabled(w: World, e: Event) {
    match e
    case Look(s) => At(w, s).Free? || At(w, s).Taken?
    case Check(s) => At(w, s).Looked? && At(w, s).onTurn.Some?
    case Dial(s) => At(w, s).Ready? || (At(w, s).Looked? && At(w, s).onTurn.None?)
    case End(s, _, _) => At(w, s).Dialing?
    case FindByStall(s, mark, _) => At(w, s).Failed? && mark <= w.p.heard
    case FindBySilence(s, _) => At(w, s).Failed? && w.now - At(w, s).start >= EVIDENCE_MIN
    case FindHolding(s) => At(w, s).Failed?
    case Resume(s) => At(w, s).Failed?
    case Announces => w.announced < w.lit
    case Park(s) => At(w, s).Parking?
    case Wait(s) => At(w, s).Parked?
    case Take(s) => At(w, s).Parked?
    case Release(s) => At(w, s).Parked?
    case ByProof(s) => At(w, s).Parked? && w.announced > At(w, s).seen
    case ByHearing(s) => At(w, s).Parked?
    case LimitDark(s) => At(w, s).Parked?
    case LimitScouted(s) => At(w, s).AtLimit?
    case StopWait(s) => At(w, s).Leaving?
    case Quit(s) => !At(w, s).Gone? && !At(w, s).Dialing?
    case _ => true
  }

  /** Worker s moves to ph as the path is called with c. */
  function Calls(w: World, s: nat, c: Call, ph: Phase): World {
    w.(p := Do(w.p, c), workers := w.workers[s := ph])
  }

  /** The path is called with c by nobody's attempt. */
  function Outside(w: World, c: Call): World {
    w.(p := Do(w.p, c), dialed := if c == RelayHeard then w.dialed else None)
  }

  function Moves(w: World, s: nat, ph: Phase): World { w.(workers := w.workers[s := ph]) }

  /** Check: back with its credential, the scout asks whether it is to dial. */
  function Checked(w: World, s: nat): World
    requires At(w, s).Looked?
  {
    var ph, c := At(w, s), ScoutDials(s, w.now);
    var v := Calls(w, s, c, if Says(w.p, c) then Ready(ph.onTurn, ph.epoch) else Parking);
    if HoldsTurn(w.p.d, s, w.now) then v.(dialed := ph.onTurn, litAtDial := w.lit) else v
  }

  /** End: the attempt is over, and darkScoutDone hears of it if it was a scout's. */
  function Ended(w: World, s: nat, dark: bool, froze: bool): World
    requires At(w, s).Dialing?
  {
    var ph := At(w, s);
    var after := Failed(ph.epoch, ph.start, ph.mark);
    if ph.onTurn.None? then Moves(w, s, after)
    else
      var v := Calls(w, s, ScoutDone(s, ph.start, w.now, dark, froze), after);
      if HasSay(w.p, s) then v.(dialed := None) else v
  }

  function Took(w: World, s: nat): World {
    var c := TakeScout(s, w.now);
    if Says(w.p, c) then Calls(w, s, c, Taken(w.turn + 1)).(turn := w.turn + 1) else Calls(w, s, c, At(w, s))
  }

  function QuitAs(w: World, s: nat): World {
    Calls(w, s, Leave(s), Gone).(dialed := if w.p.d.scout == Some(s) then None else w.dialed)
  }

  function Next(w: World, e: Event): World
    requires Enabled(w, e)
  {
    match e
    case Tick(passed) => w.(now := w.now + passed)
    case Heard => Outside(w, RelayHeard)
    case Lit => Outside(w, LitPath)
    case Proves => Outside(w, LitPath).(lit := w.lit + 1)
    case Announces => w.(announced := w.announced + 1)
    case NewPath => Outside(w, Reset)
    case Look(s) => Moves(w, s, Looked(TurnOf(At(w, s)), w.p.epoch))
    case Check(s) => Checked(w, s)
    case Dial(s) => Moves(w, s, Dialing(At(w, s).onTurn, At(w, s).epoch, w.now, w.p.heard))
    case End(s, dark, froze) => Ended(w, s, dark, froze)
    case FindByStall(s, mark, froze) =>
      var c := NoteDarkPath(mark, At(w, s).epoch, At(w, s).start, w.now, froze);
      Calls(w, s, c, if Says(w.p, c) then Parking else Free)
    case FindBySilence(s, froze) =>
      var c := NoteDarkPath(At(w, s).mark, At(w, s).epoch, At(w, s).start, w.now, froze);
      Calls(w, s, c, if Says(w.p, c) then Parking else Free)
    case FindHolding(s) => Calls(w, s, StillDark, if Says(w.p, StillDark) then Parking else Free)
    case Resume(s) => Moves(w, s, Free)
    case Park(s) => Moves(w, s, Parked(w.announced))
    case Wait(s) => Calls(w, s, WaitInTheDark(s), At(w, s))
    case Take(s) => Took(w, s)
    case Release(s) => Calls(w, s, Releases(w.now), if Says(w.p, Releases(w.now)) then Leaving else At(w, s))
    case ByProof(s) => Moves(w, s, Leaving)
    case ByHearing(s) => Moves(Outside(w, LitPath), s, Leaving)
    case LimitDark(s) => Calls(w, s, StillDark, if Says(w.p, StillDark) then At(w, s) else AtLimit(At(w, s).seen))
    case LimitScouted(s) =>
      Calls(w, s, Scouted(s, w.now), if Says(w.p, Scouted(s, w.now)) then Parked(At(w, s).seen) else Leaving)
    case StopWait(s) => Calls(w, s, StopWaiting(s), Free)
    case Quit(s) => QuitAs(w, s)
  }

  const START := World(Path(NO_DARK, 0, 0), 0, map[], 0, None, 0, 0, 0)

  // ---- The invariant ---------------------------------------------------------------

  /** Only parked workers stand in line, and the scout's turn is the one its worker is in. */
  ghost predicate Fits(w: World, s: nat) {
    var ph, d := At(w, s), w.p.d;
    && (s in d.waiting ==> MayStand(ph))
    && (TurnOf(ph).Some? ==> TurnOf(ph).value <= w.turn)
    && (d.scout == Some(s) && d.dialing ==>
          (ph.Ready? || ph.Dialing?) && ph.epoch == w.p.epoch && ph.onTurn.Some? && w.dialed == ph.onTurn)
    && (d.scout == Some(s) && !d.dialing && w.now < d.leaseTill ==>
          TurnOf(ph) == Some(w.turn) && (ph.Taken? || (ph.Looked? && ph.epoch == w.p.epoch)))
  }

  ghost predicate OneWorkerEach(workers: map<nat, Phase>) {
    forall s, t :: s in workers && t in workers && s != t && TurnOf(workers[s]).Some? ==>
      TurnOf(workers[s]) != TurnOf(workers[t])
  }

  ghost predicate Inv(w: World) {
    && Once(w.p.d.waiting) && OneWorkerEach(w.workers)
    && w.p.d.mark <= w.p.heard && (w.p.d.dialing ==> w.p.d.scout.Some?) && (w.dialed.Some? <==> w.p.d.dialing)
    && w.announced <= w.lit && (w.dialed.Some? ==> w.litAtDial == w.lit)
    && forall s :: Fits(w, s)
  }

  /** A worker whose phase carries the turn it had, or none, or a new one, keeps turns apart. */
  lemma TurnsApart(workers: map<nat, Phase>, s: nat, ph: Phase, turn: nat)
    requires OneWorkerEach(workers)
    requires forall t :: t in workers && TurnOf(workers[t]).Some? ==> TurnOf(workers[t]).value <= turn
    requires TurnOf(ph).None? || (s in workers && TurnOf(ph) == TurnOf(workers[s])) || TurnOf(ph) == Some(turn + 1)
    ensures OneWorkerEach(workers[s := ph])
  {
  }

  lemma TurnsKnown(w: World)
    requires Inv(w)
    ensures forall t :: t in w.workers && TurnOf(w.workers[t]).Some? ==> TurnOf(w.workers[t]).value <= w.turn
  {
    forall t | t in w.workers && TurnOf(w.workers[t]).Some? ensures TurnOf(w.workers[t]).value <= w.turn {
      assert Fits(w, t);
    }
  }

  /** What a call that is no scout's own can do to the turn: nothing, or end it. */
  lemma QuietCall(p: Path, c: Call)
    requires c.NoteDarkPath? || c.StillDark? || c.Releases? || c.Scouted? || c.WaitInTheDark? || c.StopWaiting? || c.RelayHeard?
    ensures var d, e := p.d, Do(p, c).d;
            && e.scout == d.scout && e.dialing == d.dialing && e.leaseTill == d.leaseTill
            && Do(p, c).epoch == p.epoch && (d.mark <= p.heard ==> e.mark <= Do(p, c).heard)
            && forall s :: s in e.waiting ==> s in d.waiting || c == WaitInTheDark(s)
  {
    if c.StopWaiting? { OnlyFewer(p.d.waiting, c.s); }
  }

  lemma {:induction false} OnlyFewer(line: seq<nat>, s: nat)
    ensures forall x :: x in Without(line, s) <==> x in line && x != s
    decreases |line|
  {
    if line != [] {
      OnlyFewer(line[1..], s);
      assert line == [line[0]] + line[1..];
    }
  }

  /** A worker in no turn calls the path with nothing to do with turns. */
  lemma QuietStep(w: World, s: nat, c: Call, ph: Phase)
    requires Inv(w) && TurnOf(At(w, s)).None? && TurnOf(ph).None?
    requires c.NoteDarkPath? || c.StillDark? || c.Releases? || c.Scouted? || c.WaitInTheDark? || c.StopWaiting?
    requires c.WaitInTheDark? ==> c.s == s
    requires s in Do(w.p, c).d.waiting ==> MayStand(ph)
    ensures Inv(Calls(w, s, c, ph))
  {
    var v := Calls(w, s, c, ph);
    QuietCall(w.p, c);
    LineStep(w.p, c, s);
    TurnsKnown(w);
    TurnsApart(w.workers, s, ph, w.turn);
    hide OneWorkerEach, Do, Once;
    forall t ensures Fits(v, t) { assert Fits(w, t); }
  }

  /** A worker moves on without calling the path. */
  lemma MoveStep(w: World, s: nat, ph: Phase)
    requires Inv(w) && (TurnOf(ph).None? || TurnOf(ph) == TurnOf(At(w, s)))
    requires s in w.p.d.waiting ==> MayStand(ph)
    requires HasSay(w.p, s) ==> (ph.Ready? || ph.Dialing?) && ph.epoch == w.p.epoch && w.dialed == ph.onTurn
    requires HoldsTurn(w.p.d, s, w.now) && !w.p.d.dialing ==>
      TurnOf(ph) == Some(w.turn) && (ph.Taken? || (ph.Looked? && ph.epoch == w.p.epoch))
    ensures Inv(Moves(w, s, ph))
  {
    var v := Moves(w, s, ph);
    TurnsKnown(w);
    TurnsApart(w.workers, s, ph, w.turn);
    assert Fits(w, s);
    hide OneWorkerEach, Once;
    forall t ensures Fits(v, t) { assert Fits(w, t); }
  }

  lemma OutsideStep(w: World, c: Call)
    requires Inv(w) && (c == RelayHeard || c == LitPath || c == Reset)
    ensures Inv(Outside(w, c))
  {
    var v := Outside(w, c);
    LineStep(w.p, c, 0);
    hide OneWorkerEach, Once;
    forall t ensures Fits(v, t) { assert Fits(w, t); }
  }

  lemma CheckStep(w: World, s: nat)
    requires Inv(w) && At(w, s).Looked? && At(w, s).onTurn.Some?
    ensures Inv(Checked(w, s))
  {
    var v := Checked(w, s);
    var c := ScoutDials(s, w.now);
    var ph := if Says(w.p, c) then Ready(At(w, s).onTurn, At(w, s).epoch) else Parking;
    assert Fits(w, s);
    LineStep(w.p, c, s);
    TurnsKnown(w);
    TurnsApart(w.workers, s, ph, w.turn);
    hide OneWorkerEach, Once;
    forall t ensures Fits(v, t) { assert Fits(w, t); }
  }

  lemma EndStep(w: World, s: nat, dark: bool, froze: bool)
    requires Inv(w) && At(w, s).Dialing? && At(w, s).onTurn.Some?
    ensures Inv(Ended(w, s, dark, froze))
  {
    var v := Ended(w, s, dark, froze);
    var was := At(w, s);
    var ph := Failed(was.epoch, was.start, was.mark);
    LineStep(w.p, ScoutDone(s, was.start, w.now, dark, froze), s);
    EndCall(w.p, s, was.start, w.now, dark, froze);
    assert Fits(w, s);
    TurnsKnown(w);
    TurnsApart(w.workers, s, ph, w.turn);
    hide OneWorkerEach, Once, Do;
    forall t ensures Fits(v, t) { assert Fits(w, t); }
  }

  lemma EndCall(p: Path, s: nat, start: int, now: int, dark: bool, froze: bool)
    ensures var q := Do(p, ScoutDone(s, start, now, dark, froze));
            && q.d.waiting == p.d.waiting && q.epoch == p.epoch && (p.d.mark <= p.heard ==> q.d.mark <= q.heard)
            && (if HasSay(p, s) then q.d.scout == None && !q.d.dialing else q == p)
  {
  }

  lemma TakeStep(w: World, s: nat)
    requires Inv(w) && At(w, s).Parked?
    ensures Inv(Took(w, s))
  {
    var v := Took(w, s);
    var c := TakeScout(s, w.now);
    assert Fits(w, s);
    LineStep(w.p, c, s);
    TurnsKnown(w);
    TurnsApart(w.workers, s, if Says(w.p, c) then Taken(w.turn + 1) else At(w, s), w.turn);
    TakeCall(w.p, s, w.now);
    hide OneWorkerEach, Once, Do;
    forall t ensures Fits(v, t) { assert Fits(w, t); }
  }

  lemma TakeCall(p: Path, s: nat, now: int)
    requires Once(p.d.waiting) && (p.d.dialing ==> p.d.scout.Some?)
    ensures var c := TakeScout(s, now);
            var d, e := p.d, Do(p, c).d;
            && Do(p, c).epoch == p.epoch && e.mark == d.mark && Do(p, c).heard == p.heard
            && (if Says(p, c) then e.scout == Some(s) && !e.dialing && !d.dialing && s !in e.waiting
                else e.scout == d.scout && e.dialing == d.dialing && e.leaseTill == d.leaseTill)
            && forall t :: t in e.waiting ==> t in d.waiting
  {
    if Says(p, TakeScout(s, now)) {
      var line := p.d.waiting;
      forall j | 1 <= j < |line| ensures line[j] != s {}
    }
  }

  lemma QuitStep(w: World, s: nat)
    requires Inv(w) && !At(w, s).Dialing?
    ensures Inv(QuitAs(w, s))
  {
    var v := QuitAs(w, s);
    assert Fits(w, s);
    LineStep(w.p, Leave(s), s);
    OnlyFewer(w.p.d.waiting, s);
    TurnsKnown(w);
    TurnsApart(w.workers, s, Gone, w.turn);
    hide OneWorkerEach, Once;
    forall t ensures Fits(v, t) { assert Fits(w, t); }
  }

  lemma InvStep(w: World, e: Event)
    requires Inv(w) && Enabled(w, e)
    ensures Inv(Next(w, e))
  {
    if e.Tick? || e.Announces? {
      forall t ensures Fits(Next(w, e), t) { assert Fits(w, t); }
    } else if e.Heard? || e.Lit? || e.NewPath? {
      OutsideStep(w, if e.Heard? then RelayHeard else if e.Lit? then LitPath else Reset);
    } else if e.Proves? {
      OutsideStep(w, LitPath);
      forall t ensures Fits(Next(w, e), t) { assert Fits(Outside(w, LitPath), t); }
    } else {
      assert Fits(w, e.s);
      hide Inv, Do, Says;
      match e
      case Look(s) => MoveStep(w, s, Looked(TurnOf(At(w, s)), w.p.epoch));
      case Check(s) => CheckStep(w, s);
      case Dial(s) => MoveStep(w, s, Dialing(At(w, s).onTurn, At(w, s).epoch, w.now, w.p.heard));
      case End(s, dark, froze) =>
        var ph := At(w, s);
        if ph.onTurn.Some? { EndStep(w, s, dark, froze); } else { MoveStep(w, s, Failed(ph.epoch, ph.start, ph.mark)); }
      case Take(s) => TakeStep(w, s);
      case Quit(s) => QuitStep(w, s);
      case Resume(s) => MoveStep(w, s, Free);
      case Park(s) => MoveStep(w, s, Parked(w.announced));
      case ByProof(s) => MoveStep(w, s, Leaving);
      case ByHearing(s) =>
        OutsideStep(w, LitPath);
        LitFrees(w, s);
        MoveStep(Outside(w, LitPath), s, Leaving);
      case _ => QuietEvent(w, e);
    }
  }

  lemma LitFrees(w: World, s: nat)
    ensures var v := Outside(w, LitPath); v.p.d.scout == None && At(v, s) == At(w, s) && v.now == w.now
  {
  }

  lemma QuietEvent(w: World, e: Event)
    requires Inv(w) && Enabled(w, e)
    requires e.FindByStall? || e.FindBySilence? || e.FindHolding? || e.Wait? || e.Release?
          || e.LimitDark? || e.LimitScouted? || e.StopWait?
    ensures Inv(Next(w, e))
  {
    var s := e.s;
    assert Fits(w, s);
    match e
    case FindByStall(_, mark, froze) =>
      var c := NoteDarkPath(mark, At(w, s).epoch, At(w, s).start, w.now, froze);
      QuietCall(w.p, c);
      QuietStep(w, s, c, if Says(w.p, c) then Parking else Free);
    case FindBySilence(_, froze) =>
      var c := NoteDarkPath(At(w, s).mark, At(w, s).epoch, At(w, s).start, w.now, froze);
      QuietCall(w.p, c);
      QuietStep(w, s, c, if Says(w.p, c) then Parking else Free);
    case FindHolding(_) => QuietStep(w, s, StillDark, if Says(w.p, StillDark) then Parking else Free);
    case Wait(_) => QuietStep(w, s, WaitInTheDark(s), At(w, s));
    case Release(_) =>
      QuietStep(w, s, Releases(w.now), if Says(w.p, Releases(w.now)) then Leaving else At(w, s));
    case LimitDark(_) =>
      QuietStep(w, s, StillDark, if Says(w.p, StillDark) then At(w, s) else AtLimit(At(w, s).seen));
    case LimitScouted(_) =>
      var c := Scouted(s, w.now);
      QuietStep(w, s, c, if Says(w.p, c) then Parked(At(w, s).seen) else Leaving);
    case StopWait(_) =>
      OnlyFewer(w.p.d.waiting, s);
      QuietStep(w, s, StopWaiting(s), Free);
  }

  // ---- Whole runs ---------------------------------------------------------------------

  ghost predicate Reaches(events: seq<Event>, w: World)
    decreases |events|
  {
    if events == [] then w == START
    else
      var e := events[|events| - 1];
      exists v :: Reaches(events[..|events| - 1], v) && Enabled(v, e) && w == Next(v, e)
  }

  lemma {:induction false} RunHolds(events: seq<Event>, w: World)
    requires Reaches(events, w)
    ensures Inv(w)
    decreases |events|
  {
    if events == [] {
      assert forall s :: Fits(START, s);
    } else {
      var e := events[|events| - 1];
      var v :| Reaches(events[..|events| - 1], v) && Enabled(v, e) && w == Next(v, e);
      RunHolds(events[..|events| - 1], v);
      InvStep(v, e);
    }
  }

  /**
    The verdict of a turn has a say exactly while that turn is the one dialing;
    then it speaks of the path as it stands now. From a turn that has passed,
    or a path that is gone, it changes nothing.
   */
  lemma VerdictIsOfTheTurn(events: seq<Event>, w: World, s: nat, dark: bool, froze: bool)
    requires Reaches(events, w) && At(w, s).Dialing? && At(w, s).onTurn.Some?
    ensures HasSay(w.p, s) <==> w.dialed == At(w, s).onTurn
    ensures w.dialed == At(w, s).onTurn ==> At(w, s).epoch == w.p.epoch
    ensures w.dialed != At(w, s).onTurn ==> Next(w, End(s, dark, froze)).p == w.p
  {
    RunHolds(events, w);
    assert Fits(w, s);
    if w.dialed == At(w, s).onTurn {
      var t := w.p.d.scout.value;
      assert Fits(w, t);
      assert s in w.workers && t in w.workers;
    }
  }

  /** The events that end the turn dialing: its verdict, its worker's leaving, a light, another path. */
  predicate Ends(w: World, e: Event) {
    e.Lit? || e.Proves? || e.ByHearing? || e.NewPath? || ((e.End? || e.Quit?) && w.p.d.scout == Some(e.s))
  }

  /**
    A turn that dials ends by its verdict, its worker's leaving, a light or
    another path, and no other way. Until then no other scout is told to dial
    and no worker comes out of its park, not at the park's limit either: but one
    that slept through a proof announced since it parked, whose light came
    before the turn dialed.
   */
  lemma TurnEndsBy(events: seq<Event>, w: World, e: Event, t: nat)
    requires Reaches(events, w) && Enabled(w, e) && w.dialed.Some?
    ensures Next(w, e).dialed != w.dialed <==> Ends(w, e)
    ensures !Ends(w, e) && At(w, t).Looked? && At(w, t).onTurn.Some? ==> !At(Next(w, e), t).Ready?
    ensures !Ends(w, e) && InPark(At(w, t)) && !InPark(At(Next(w, e), t)) ==>
      e == Quit(t) || (e == ByProof(t) && At(w, t).seen < w.announced <= w.litAtDial)
  {
    RunHolds(events, w);
    var s := w.p.d.scout.value;
    assert Fits(w, s);
    assert Fits(w, t);
    hide Inv, Reaches;
    DialedStays(w, e);
    ParkedStays(w, e, t);
  }

  lemma DialedStays(w: World, e: Event)
    requires Enabled(w, e) && w.dialed.Some? && w.p.d.dialing && w.p.d.scout.Some?
    requires TurnOf(At(w, w.p.d.scout.value)) == w.dialed && !At(w, w.p.d.scout.value).Looked?
    ensures Next(w, e).dialed != w.dialed <==> Ends(w, e)
  {
    hide Do;
  }

  lemma ParkedStays(w: World, e: Event, t: nat)
    requires Enabled(w, e) && w.p.d.dialing && w.p.d.scout.Some? && w.announced <= w.lit == w.litAtDial
    requires w.p.d.scout == Some(t) ==> At(w, t).Ready? || At(w, t).Dialing?
    ensures !Ends(w, e) && At(w, t).Looked? && At(w, t).onTurn.Some? ==> !At(Next(w, e), t).Ready?
    ensures !Ends(w, e) && InPark(At(w, t)) && !InPark(At(Next(w, e), t)) ==>
      e == Quit(t) || (e == ByProof(t) && At(w, t).seen < w.announced <= w.litAtDial)
  {
    hide Do;
  }

  lemma FoundOnlyBy(w: World, e: Event)
    requires Enabled(w, e) && w.p.d.mark <= w.p.heard && !Holds(w.p) && Holds(Next(w, e).p)
    ensures e.End? || e.FindByStall? || e.FindBySilence?
    ensures !e.froze && Next(w, e).p.d.mark == w.p.heard
    ensures e.End? ==> e.dark && At(w, e.s).onTurn.Some? && HasSay(w.p, e.s)
    ensures e.FindByStall? ==> e.mark == w.p.heard && At(w, e.s).epoch == w.p.epoch
    ensures e.FindBySilence? ==> At(w, e.s).mark == w.p.heard && At(w, e.s).epoch == w.p.epoch
  {
    hide Without;
  }

  /**
    The path is found dark only by an attempt of this very path that no sleep
    fell inside, no relay heard since the mark it is found at: a scout's verdict
    in its turn, a stalled socket's lookout, or an attempt of its own that ran
    long enough and heard no relay from its start on.
   */
  lemma DarkIsFoundBy(events: seq<Event>, w: World, e: Event)
    requires Reaches(events, w) && Enabled(w, e) && !Holds(w.p) && Holds(Next(w, e).p)
    ensures e.End? || e.FindByStall? || e.FindBySilence?
    ensures !e.froze && At(w, e.s).epoch == w.p.epoch
    ensures e.End? ==> e.dark && At(w, e.s).onTurn.Some? && w.dialed == At(w, e.s).onTurn
    ensures e.FindByStall? ==> e.mark == w.p.heard
    ensures e.FindBySilence? ==> At(w, e.s).mark == w.p.heard && w.now - At(w, e.s).start >= EVIDENCE_MIN
  {
    RunHolds(events, w);
    FoundOnlyBy(w, e);
    if e.End? { assert Fits(w, e.s); }
    hide Do;
  }

  // ---- The dark is found when it is there -----------------------------------------------------

  /** An attempt of this very path finds it dark: no relay heard since its mark, no sleep inside, and its failure has a say. */
  predicate FindsIt(w: World, e: Event) {
    match e
    case FindByStall(s, mark, froze) => !froze && At(w, s).Failed? && At(w, s).epoch == w.p.epoch && mark == w.p.heard
    case FindBySilence(s, froze) =>
      !froze && At(w, s).Failed? && At(w, s).epoch == w.p.epoch && At(w, s).mark == w.p.heard
    case End(s, dark, froze) =>
      !froze && dark && At(w, s).Dialing? && At(w, s).onTurn.Some? && w.dialed == At(w, s).onTurn
    case _ => false
  }

  /** The events that end a dark: a relay heard, a light, another path. */
  predicate EndsDark(e: Event) { e.Heard? || e.Lit? || e.Proves? || e.ByHearing? || e.NewPath? }

  /** The dark holds: found, with no relay heard since its mark. */
  predicate IsDark(w: World) { w.p.d.found && w.p.heard == w.p.d.mark }

  lemma DarkBy(w: World, e: Event)
    requires Enabled(w, e) && w.p.d.mark <= w.p.heard
    requires e.End? && At(w, e.s).onTurn.Some? ==> (w.dialed == At(w, e.s).onTurn <==> HasSay(w.p, e.s))
    ensures IsDark(Next(w, e)) <==> (IsDark(w) && !EndsDark(e)) || FindsIt(w, e)
  {
    hide Without, ScoutNext, Later;
  }

  /**
    The path is dark after an event exactly if it was and nothing was heard, lit
    or reset, or an attempt of this path has just found it so.
   */
  lemma DarkExactly(events: seq<Event>, w: World, e: Event)
    requires Reaches(events, w) && Enabled(w, e)
    ensures IsDark(Next(w, e)) <==> (IsDark(w) && !EndsDark(e)) || FindsIt(w, e)
  {
    RunHolds(events, w);
    if e.End? && At(w, e.s).onTurn.Some? { VerdictIsOfTheTurn(events, w, e.s, e.dark, e.froze); }
    hide Do, Reaches, OneWorkerEach, Once, Next, FindsIt;
    DarkBy(w, e);
  }

  /** A worker that looks for the dark parks exactly if the path is dark then, and its attempt of this path. */
  lemma FinderParks(events: seq<Event>, w: World, e: Event)
    requires Reaches(events, w) && Enabled(w, e) && (e.FindByStall? || e.FindBySilence? || e.FindHolding?)
    ensures At(Next(w, e), e.s) == if IsDark(Next(w, e)) && (e.FindHolding? || At(w, e.s).epoch == w.p.epoch)
                                   then Parking else Free
  {
    RunHolds(events, w);
    hide Without, ScoutNext, Later, OneWorkerEach, Once, Reaches;
  }

  /**
    A scout back past its lease has lost its turn: it parks while the path is
    dark or another scout's turn is live, and goes on by itself if not.
   */
  lemma LapsedScout(events: seq<Event>, w: World, s: nat)
    requires Reaches(events, w) && At(w, s).Looked? && At(w, s).onTurn.Some? && w.now >= w.p.d.leaseTill
    ensures At(Next(w, Check(s)), s) == if !IsDark(w) && w.dialed.None? then Ready(At(w, s).onTurn, At(w, s).epoch) else Parking
    ensures Next(w, Check(s)).dialed == w.dialed
  {
    RunHolds(events, w);
    if w.p.d.scout.Some? { assert Fits(w, w.p.d.scout.value); }
    assert Fits(w, s);
    hide OneWorkerEach, Once, Reaches;
  }

  // ---- Nobody is left in the dark ---------------------------------------------------------------

  function EpochOf(ph: Phase): nat {
    match ph
    case Looked(_, epoch) => epoch
    case Ready(_, epoch) => epoch
    case Dialing(_, epoch, _, _) => epoch
    case Failed(epoch, _, _) => epoch
    case _ => 0
  }

  function StartOf(ph: Phase): int {
    match ph
    case Dialing(_, _, start, _) => start
    case Failed(_, start, _) => start
    case _ => 0
  }

  /** What is due comes in time: a lease in 20 s, the next turn in 6 s, and no attempt is of a later path or time. */
  ghost predicate Due(w: World) {
    && w.now >= 0 && w.p.d.leaseTill <= w.now + 20_000_000_000 && w.p.d.nextScout <= w.now + 6_000_000_000
    && forall s :: s in w.workers ==> EpochOf(w.workers[s]) <= w.p.epoch && StartOf(w.workers[s]) <= w.now
  }

  lemma DueCall(p: Path, c: Call, now: int)
    requires p.d.leaseTill <= now + 20_000_000_000 && p.d.nextScout <= now + 6_000_000_000
    requires c.NoteDarkPath? ==> c.start <= now && c.now == now
    requires c.ScoutDone? ==> c.start <= now && c.now == now
    requires c.TakeScout? ==> c.now == now
    requires c == Reset ==> now >= 0
    ensures Do(p, c).d.leaseTill <= now + 20_000_000_000 && Do(p, c).d.nextScout <= now + 6_000_000_000
    ensures Do(p, c).epoch == if c == Reset then p.epoch + 1 else p.epoch
  {
    hide Without;
  }

  /** The call of the path an event makes. */
  function CallOf(w: World, e: Event): Option<Call>
    requires Enabled(w, e)
  {
    match e
    case Heard => Some(RelayHeard)
    case Lit => Some(LitPath)
    case Proves => Some(LitPath)
    case ByHearing(_) => Some(LitPath)
    case NewPath => Some(Reset)
    case Check(s) => Some(ScoutDials(s, w.now))
    case End(s, dark, froze) =>
      if At(w, s).onTurn.Some? then Some(ScoutDone(s, At(w, s).start, w.now, dark, froze)) else None
    case FindByStall(s, mark, froze) => Some(NoteDarkPath(mark, At(w, s).epoch, At(w, s).start, w.now, froze))
    case FindBySilence(s, froze) => Some(NoteDarkPath(At(w, s).mark, At(w, s).epoch, At(w, s).start, w.now, froze))
    case FindHolding(_) => Some(StillDark)
    case LimitDark(_) => Some(StillDark)
    case LimitScouted(s) => Some(Scouted(s, w.now))
    case Wait(s) => Some(WaitInTheDark(s))
    case Take(s) => Some(TakeScout(s, w.now))
    case Release(_) => Some(Releases(w.now))
    case StopWait(s) => Some(StopWaiting(s))
    case Quit(s) => Some(Leave(s))
    case _ => None
  }

  lemma CallIs(w: World, e: Event)
    requires Enabled(w, e)
    ensures Next(w, e).p == if CallOf(w, e).Some? then Do(w.p, CallOf(w, e).value) else w.p
    ensures Next(w, e).now == w.now + if e.Tick? then e.passed else 0
  {
    hide Do, Says, HasSay, HoldsTurn;
  }

  /** A phase is entered with the path's epoch and the clock's time, or keeps its own. */
  lemma PhaseIs(w: World, e: Event, t: nat)
    requires Enabled(w, e)
    ensures var now, was := At(Next(w, e), t), At(w, t);
            && (EpochOf(now) == EpochOf(was) || EpochOf(now) == w.p.epoch || EpochOf(now) == 0)
            && (StartOf(now) == StartOf(was) || StartOf(now) == w.now || StartOf(now) == 0)
  {
    hide Do, Says, HasSay, HoldsTurn;
  }

  lemma DueStep(w: World, e: Event)
    requires Due(w) && Enabled(w, e)
    ensures Due(Next(w, e)) && Next(w, e).p.epoch == if e.NewPath? then w.p.epoch + 1 else w.p.epoch
  {
    CallIs(w, e);
    assert forall s :: EpochOf(At(w, s)) <= w.p.epoch && StartOf(At(w, s)) <= w.now;
    if CallOf(w, e).Some? { DueCall(w.p, CallOf(w, e).value, w.now); }
    hide Do, Next, EpochOf, StartOf;
    forall t | t in Next(w, e).workers
      ensures EpochOf(At(Next(w, e), t)) <= Next(w, e).p.epoch && StartOf(At(Next(w, e), t)) <= Next(w, e).now
    {
      PhaseIs(w, e, t);
    }
  }

  lemma {:induction false} RunDue(events: seq<Event>, w: World)
    requires Reaches(events, w)
    ensures Due(w)
    decreases |events|
  {
    if events != [] {
      var e := events[|events| - 1];
      var v :| Reaches(events[..|events| - 1], v) && Enabled(v, e) && w == Next(v, e);
      RunDue(events[..|events| - 1], v);
      hide Next, Enabled, Due;
      DueStep(v, e);
    }
  }

  /**
    A reset makes another path: what was begun on the one before is of an older
    path ever after, and so finds nothing dark.
   */
  lemma ResetOutdates(events: seq<Event>, w: World, s: nat)
    requires Reaches(events, w) && s in w.workers
    ensures EpochOf(At(w, s)) <= w.p.epoch < Next(w, NewPath).p.epoch
    ensures forall e :: Enabled(w, e) ==> w.p.epoch <= Next(w, e).p.epoch
  {
    RunDue(events, w);
    hide Next, Reaches;
    DueStep(w, NewPath);
    forall e | Enabled(w, e) ensures w.p.epoch <= Next(w, e).p.epoch { DueStep(w, e); }
  }

  /**
    Nobody stays parked for want of a turn: with no scout dialing, 20 s later at
    most the head of the line is given its turn if the dark holds still, and any
    worker parked is released if it does not.
   */
  lemma ParkedGoOn(events: seq<Event>, w: World, s: nat, passed: nat)
    requires Reaches(events, w) && At(w, s).Parked? && w.dialed.None? && passed >= 20_000_000_000
    ensures var v := Next(w, Tick(passed));
            if IsDark(w)
            then w.p.d.waiting != [] && w.p.d.waiting[0] == s ==> At(Next(v, Take(s)), s) == Taken(w.turn + 1)
            else At(Next(v, Release(s)), s) == Leaving
  {
    RunHolds(events, w);
    RunDue(events, w);
    var v := Next(w, Tick(passed));
    hide Reaches, Inv, Due;
    if IsDark(w) {
      if w.p.d.waiting != [] && w.p.d.waiting[0] == s { TakesDue(v, s); }
    } else {
      ReleasesDue(v, s);
    }
  }

  lemma TakesDue(w: World, s: nat)
    requires At(w, s).Parked? && !w.p.d.dialing && IsDark(w) && w.now >= w.p.d.nextScout && w.now >= w.p.d.leaseTill
    requires w.p.d.waiting != [] && w.p.d.waiting[0] == s
    ensures At(Next(w, Take(s)), s) == Taken(w.turn + 1)
  {
  }

  lemma ReleasesDue(w: World, s: nat)
    requires At(w, s).Parked? && !w.p.d.dialing && !IsDark(w) && w.now >= w.p.d.leaseTill
    ensures At(Next(w, Release(s)), s) == Leaving
  {
  }

  // ---- A turn is good for its lease ---------------------------------------------------------------

  ghost predicate Chain(ws: seq<World>, es: seq<Event>) {
    && |ws| == |es| + 1
    && forall i :: 0 <= i < |es| ==> Enabled(ws[i], es[i]) && ws[i + 1] == Next(ws[i], es[i])
  }

  /** s holds turn n, which it has not come back from yet, under a lease until till. */
  predicate Leased(w: World, s: nat, n: nat, till: int) {
    && w.p.d.scout == Some(s) && !w.p.d.dialing && w.p.d.leaseTill == till
    && (At(w, s) == Taken(n) || (At(w, s).Looked? && At(w, s).onTurn == Some(n)))
  }

  /** The events that may take a leased turn from s, or that use it. */
  predicate Takes(e: Event, s: nat) {
    e.Lit? || e.Proves? || e.ByHearing? || e.NewPath? || e == Quit(s) || e == Check(s)
  }

  lemma LeaseKept(w: World, e: Event, s: nat, n: nat, till: int)
    requires Enabled(w, e) && Leased(w, s, n, till) && !Takes(e, s) && w.now < till
    ensures Leased(Next(w, e), s, n, till)
  {
    hide Without, ScoutNext, Later;
  }

  /**
    A worker given a turn that is back within 20 s is told to dial, in its turn,
    unless a light, another path or its own leaving came before.
   */
  lemma {:induction false} TurnIsGoodForItsLease(ws: seq<World>, es: seq<Event>, s: nat, n: nat)
    requires Chain(ws, es) && |es| > 1 && es[0] == Take(s) && At(ws[1], s) == Taken(n)
    requires es[|es| - 1] == Check(s) && ws[|es| - 1].now < ws[0].now + 20_000_000_000
    requires forall i :: 0 < i < |es| - 1 ==> !Takes(es[i], s) && ws[i].now <= ws[|es| - 1].now
    ensures At(ws[|es|], s).Ready? && At(ws[|es|], s).onTurn == Some(n) && ws[|es|].dialed == Some(n)
  {
    var k := |es| - 1;
    assert ws[1] == Next(ws[0], Take(s)) && Enabled(ws[0], es[0]);
    assert Leased(ws[1], s, n, ws[0].now + 20_000_000_000);
    LeasedUntil(ws, es, s, n, ws[0].now + 20_000_000_000, k);
    assert Enabled(ws[k], es[k]) && ws[k + 1] == Next(ws[k], es[k]);
  }

  lemma {:induction false} LeasedUntil(ws: seq<World>, es: seq<Event>, s: nat, n: nat, till: int, k: nat)
    requires Chain(ws, es) && 0 < k < |es| && Leased(ws[1], s, n, till) && ws[|es| - 1].now < till
    requires forall i :: 0 < i < |es| - 1 ==> !Takes(es[i], s) && ws[i].now <= ws[|es| - 1].now
    ensures Leased(ws[k], s, n, till)
    decreases k
  {
    if k > 1 {
      LeasedUntil(ws, es, s, n, till, k - 1);
      assert Enabled(ws[k - 1], es[k - 1]) && ws[k] == Next(ws[k - 1], es[k - 1]);
      hide Leased, Next, Enabled;
      LeaseKept(ws[k - 1], es[k - 1], s, n, till);
    }
  }

  // ---- The state as it is kept -------------------------------------------------------------

  /** darkPaths: every method runs under its lock; heard is relayHeardMark() then. */
  class DarkPaths {
    var found: bool
    var mark: nat
    var scout: Option<nat>
    var dialing: bool
    var lastScout: Option<nat>
    var leaseTill: int
    var nextScout: int
    var waiting: seq<nat>
    var epoch: nat

    function Now(heard: nat): Path
      reads this
    {
      Path(Dark(found, mark, scout, dialing, lastScout, leaseTill, nextScout, waiting), epoch, heard)
    }

    constructor ()
      ensures forall heard :: Now(heard) == Path(NO_DARK, 0, heard)
    {
      found, mark, scout, dialing, lastScout := false, 0, None, false, None;
      leaseTill, nextScout, waiting, epoch := 0, 0, [], 0;
    }

    method HoldsLocked(heard: nat) returns (holds: bool)
      modifies this`found
      ensures holds == Holds(old(Now(heard))) && Now(heard) == Held(old(Now(heard)))
    {
      if !found { return false; }
      if heard == mark { return true; }
      found := false;
      return false;
    }

    method NoteLocked(noted: nat, start: int, now: int, froze: bool, heard: nat)
      modifies this`found, this`mark, this`nextScout
      ensures Now(heard) == Noted(old(Now(heard)), noted, start, now, froze)
    {
      var holds := HoldsLocked(heard);
      if holds || heard != noted || froze { return; }
      found, mark := true, noted;
      if ScoutNext(start, now) > nextScout { nextScout := ScoutNext(start, now); }
    }

    method Note(noted: nat, at: nat, start: int, now: int, froze: bool, heard: nat) returns (dark: bool)
      modifies this`found, this`mark, this`nextScout
      ensures var c := NoteDarkPath(noted, at, start, now, froze);
              dark == Says(old(Now(heard)), c) && Now(heard) == Do(old(Now(heard)), c)
    {
      if at != epoch { return false; }
      NoteLocked(noted, start, now, froze, heard);
      dark := found;
    }

    method PathStillDark(heard: nat) returns (dark: bool)
      modifies this`found
      ensures dark == Says(old(Now(heard)), StillDark) && Now(heard) == Do(old(Now(heard)), StillDark)
    {
      dark := HoldsLocked(heard);
    }

    predicate LiveScoutLocked(now: int)
      reads this
      ensures LiveScoutLocked(now) == Live(Now(0).d, now)
    {
      scout.Some? && (dialing || now < leaseTill)
    }

    method DarkReleases(now: int, heard: nat) returns (go: bool)
      modifies this`found
      ensures go == Says(old(Now(heard)), Releases(now)) && Now(heard) == Do(old(Now(heard)), Releases(now))
    {
      var holds := HoldsLocked(heard);
      go := !holds && !LiveScoutLocked(now);
    }

    method DarkScouted(s: nat, now: int, ghost heard: nat) returns (scouted: bool)
      ensures scouted == Says(Now(heard), Scouted(s, now)) && Now(heard) == Do(Now(heard), Scouted(s, now))
    {
      scouted := scout != Some(s) && LiveScoutLocked(now);
    }

    method LightPath(ghost heard: nat)
      modifies this`found, this`scout, this`dialing
      ensures Now(heard) == Do(old(Now(heard)), LitPath)
    {
      found, scout, dialing := false, None, false;
    }

    method ResetDarkPaths(ghost heard: nat)
      modifies this
      ensures Now(heard) == Do(old(Now(heard)), Reset)
    {
      found, mark, scout, dialing, lastScout := false, 0, None, false, None;
      leaseTill, nextScout, waiting := 0, 0, [];
      epoch := epoch + 1;
    }

    method Waits(s: nat, ghost heard: nat)
      modifies this`waiting
      ensures Now(heard) == Do(old(Now(heard)), WaitInTheDark(s))
    {
      if s !in waiting { waiting := waiting + [s]; }
    }

    method StopsWaiting(s: nat, ghost heard: nat)
      modifies this`waiting
      ensures Now(heard) == Do(old(Now(heard)), StopWaiting(s))
    {
      waiting := Without(waiting, s);
    }

    method LeaveTheDark(s: nat, ghost heard: nat)
      modifies this`waiting, this`scout, this`dialing
      ensures Now(heard) == Do(old(Now(heard)), Leave(s))
    {
      waiting := Without(waiting, s);
      if scout == Some(s) { scout, dialing := None, false; }
    }

    /** changed: the turn before was another worker's. */
    method TakeDarkScout(s: nat, now: int, heard: nat) returns (taken: bool, changed: bool)
      modifies this
      ensures taken == Says(old(Now(heard)), TakeScout(s, now)) && Now(heard) == Do(old(Now(heard)), TakeScout(s, now))
      ensures changed == (taken && old(lastScout) != Some(s))
    {
      var holds := HoldsLocked(heard);
      if !holds || now < nextScout || |waiting| == 0 || waiting[0] != s { return false, false; }
      if LiveScoutLocked(now) { return false, false; }
      waiting := waiting[1..];
      changed := lastScout != Some(s);
      scout, dialing, lastScout, leaseTill := Some(s), false, Some(s), now + LEASE;
      taken := true;
    }

    method DarkScoutDials(s: nat, now: int, heard: nat) returns (dials: bool)
      modifies this`found, this`dialing
      ensures dials == Says(old(Now(heard)), ScoutDials(s, now))
      ensures Now(heard) == Do(old(Now(heard)), ScoutDials(s, now))
    {
      if scout == Some(s) && (dialing || now < leaseTill) {
        dialing := true;
        return true;
      }
      var holds := HoldsLocked(heard);
      dials := !holds && !LiveScoutLocked(now);
    }

    method DarkScoutDone(s: nat, start: int, now: int, dark: bool, froze: bool, heard: nat)
      modifies this
      ensures Now(heard) == Do(old(Now(heard)), ScoutDone(s, start, now, dark, froze))
    {
      if scout != Some(s) || !dialing { return; }
      if dark { NoteLocked(heard, start, now, froze, heard); }
      scout, dialing := None, false;
      if ScoutNext(start, now) > nextScout { nextScout := ScoutNext(start, now); }
    }
  }
}
