/**
  The dark path's state and what each call does to it (pkg/proxy/dark_scout.go):
  the mark a dark was found at, the scout's turn and its lease, the line of
  parked workers. Times are nanoseconds, 0 the zero time.
 */
module DarkPath {
  import opened Wrappers

  const GAP := 500_000_000
  const PERIOD := 6_000_000_000
  const LEASE := 20_000_000_000

  /** Streams are told apart by number. */
  datatype Dark = Dark(found: bool, mark: nat, scout: Option<nat>, dialing: bool, lastScout: Option<nat>,
                       leaseTill: int, nextScout: int, waiting: seq<nat>)

  const NO_DARK := Dark(false, 0, None, false, None, 0, 0, [])

  /** The dark of the path, the path's number, and how often a relay has been heard. */
  datatype Path = Path(d: Dark, epoch: nat, heard: nat)

  /** holdsLocked: a relay heard since the dark was found ends it. */
  predicate Holds(p: Path) { p.d.found && p.heard == p.d.mark }
  function Held(p: Path): Path { p.(d := p.d.(found := Holds(p))) }

  /** liveScoutLocked */
  predicate Live(d: Dark, now: int) { d.scout.Some? && (d.dialing || now < d.leaseTill) }

  /** scoutNext */
  function ScoutNext(start: int, end: int): (next: int)
    ensures next >= end + GAP && next >= start + PERIOD
    ensures next == end + GAP || next == start + PERIOD
  {
    if start + PERIOD > end + GAP then start + PERIOD else end + GAP
  }

  function Later(a: int, b: int): int { if b > a then b else a }

  /** noteLocked: froze is whether a sleep fell inside the attempt. */
  function Noted(p: Path, mark: nat, start: int, now: int, froze: bool): Path {
    var q := Held(p);
    if Holds(p) || p.heard != mark || froze then q
    else q.(d := q.d.(found := true, mark := mark, nextScout := Later(q.d.nextScout, ScoutNext(start, now))))
  }

  function Without(line: seq<nat>, s: nat): seq<nat>
    decreases |line|
  {
    if line == [] then [] else (if line[0] == s then [] else [line[0]]) + Without(line[1..], s)
  }

  // ---- The calls -------------------------------------------------------------------

  datatype Call =
    | NoteDarkPath(mark: nat, epoch: nat, start: int, now: int, froze: bool)
    | StillDark
    | Releases(now: int)
    | LitPath
    | Reset
    | WaitInTheDark(s: nat)
    | StopWaiting(s: nat)
    | Leave(s: nat)
    | TakeScout(s: nat, now: int)
    | ScoutDials(s: nat, now: int)
    | ScoutDone(s: nat, start: int, now: int, dark: bool, froze: bool)
    | Scouted(s: nat, now: int)
    | RelayHeard

  /** s may take the next turn. */
  predicate MayTake(p: Path, s: nat, now: int) {
    Holds(p) && now >= p.d.nextScout && p.d.waiting != [] && p.d.waiting[0] == s && !Live(p.d, now)
  }

  /** s holds the turn it took, dialing or in its lease. */
  predicate HoldsTurn(d: Dark, s: nat, now: int) { d.scout == Some(s) && (d.dialing || now < d.leaseTill) }

  /** What the call answers. */
  predicate Says(p: Path, c: Call) {
    match c
    case NoteDarkPath(mark, epoch, start, now, froze) => epoch == p.epoch && Noted(p, mark, start, now, froze).d.found
    case StillDark => Holds(p)
    case Releases(now) => !Holds(p) && !Live(p.d, now)
    case TakeScout(s, now) => MayTake(p, s, now)
    case ScoutDials(s, now) => HoldsTurn(p.d, s, now) || (!Holds(p) && !Live(p.d, now))
    case Scouted(s, now) => p.d.scout != Some(s) && Live(p.d, now)
    case _ => false
  }

  /** The scout's verdict has a say: it dialed in its turn and holds it still. */
  predicate HasSay(p: Path, s: nat) { p.d.scout == Some(s) && p.d.dialing }

  function AfterVerdict(p: Path, start: int, now: int, dark: bool, froze: bool): Path {
    var q := if dark then Noted(p, p.heard, start, now, froze) else p;
    q.(d := q.d.(scout := None, dialing := false, nextScout := Later(q.d.nextScout, ScoutNext(start, now))))
  }

  function AfterTake(p: Path, s: nat, now: int): Path {
    var q := Held(p);
    if !MayTake(p, s, now) then q
    else q.(d := q.d.(waiting := p.d.waiting[1..], scout := Some(s), dialing := false, lastScout := Some(s),
                      leaseTill := now + LEASE))
  }

  /** What the call leaves. */
  function Do(p: Path, c: Call): Path {
    match c
    case NoteDarkPath(mark, epoch, start, now, froze) => if epoch != p.epoch then p else Noted(p, mark, start, now, froze)
    case StillDark => Held(p)
    case Releases(now) => Held(p)
    case LitPath => p.(d := p.d.(found := false, scout := None, dialing := false))
    case Reset => p.(d := NO_DARK, epoch := p.epoch + 1)
    case WaitInTheDark(s) => if s in p.d.waiting then p else p.(d := p.d.(waiting := p.d.waiting + [s]))
    case StopWaiting(s) => p.(d := p.d.(waiting := Without(p.d.waiting, s)))
    case Leave(s) =>
      var d := p.d.(waiting := Without(p.d.waiting, s));
      p.(d := if d.scout == Some(s) then d.(scout := None, dialing := false) else d)
    case TakeScout(s, now) => AfterTake(p, s, now)
    case ScoutDials(s, now) => if HoldsTurn(p.d, s, now) then p.(d := p.d.(dialing := true)) else Held(p)
    case ScoutDone(s, start, now, dark, froze) =>
      if !HasSay(p, s) then p else AfterVerdict(p, start, now, dark, froze)
    case Scouted(_, _) => p
    case RelayHeard => p.(heard := p.heard + 1)
  }

  function Run(p: Path, calls: seq<Call>): Path
    decreases |calls|
  {
    if calls == [] then p else Do(Run(p, calls[..|calls| - 1]), calls[|calls| - 1])
  }

  // ---- One dialer at a time ------------------------------------------------------------

  /** The calls that end s's turn once it dials. */
  predicate EndsTurn(c: Call, s: nat) {
    c == LitPath || c == Reset || c == Leave(s) || (c.ScoutDone? && c.s == s)
  }

  /** The calls that would let a worker other than s go or dial. */
  predicate LetsGo(c: Call, s: nat) {
    c.TakeScout? || c.Releases? || (c.ScoutDials? && c.s != s)
  }

  lemma ExclusiveStep(p: Path, c: Call, s: nat)
    requires HasSay(p, s) && !EndsTurn(c, s)
    ensures HasSay(Do(p, c), s) && (LetsGo(c, s) ==> !Says(p, c))
  {
  }

  /**
    From a worker's yes, by the turn it holds, to its verdict, a light, a reset
    or its own leaving, nobody is given a turn and nobody else is told to dial
    or released, whatever relays are heard and darks found meanwhile.
   */
  lemma {:induction false} ScoutDialsAlone(p: Path, calls: seq<Call>, s: nat, i: nat)
    requires HasSay(p, s) && forall k :: 0 <= k < |calls| ==> !EndsTurn(calls[k], s)
    ensures HasSay(Run(p, calls), s)
    ensures i < |calls| && LetsGo(calls[i], s) ==> !Says(Run(p, calls[..i]), calls[i])
    decreases |calls|
  {
    if calls != [] {
      var prior := calls[..|calls| - 1];
      if i < |calls| { assert calls[..i] == if i < |prior| then prior[..i] else prior; }
      ScoutDialsAlone(p, prior, s, i);
      ExclusiveStep(Run(p, prior), calls[|prior|], s);
      hide Do, Says;
    }
  }

  /** A yes by the turn: what darkScoutDials leaves has s dialing, exactly when s held a live turn. */
  lemma YesByTheTurn(p: Path, s: nat, now: int)
    ensures HasSay(Do(p, ScoutDials(s, now)), s) <==> HoldsTurn(p.d, s, now)
    ensures HoldsTurn(p.d, s, now) ==> Says(p, ScoutDials(s, now))
    ensures !HoldsTurn(p.d, s, now) && Says(p, ScoutDials(s, now)) ==>
      !Holds(p) && forall t :: !HoldsTurn(p.d, t, now)
    ensures p.d.scout == Some(s) && !p.d.dialing && now >= p.d.leaseTill && Holds(p) ==> !Says(p, ScoutDials(s, now))
  {
  }

  // ---- The line ---------------------------------------------------------------------------

  ghost predicate Once(line: seq<nat>) {
    forall i, j :: 0 <= i < j < |line| ==> line[i] != line[j]
  }

  /** Where s stands in line, |line| if it does not. */
  function Place(line: seq<nat>, s: nat): (k: nat)
    ensures k <= |line| && (k < |line| <==> s in line) && (k < |line| ==> line[k] == s)
    ensures forall i :: 0 <= i < k ==> line[i] != s
    decreases |line|
  {
    if line == [] then 0 else if line[0] == s then 0 else 1 + Place(line[1..], s)
  }

  lemma {:induction false} WithoutKeeps(line: seq<nat>, s: nat)
    requires Once(line)
    ensures Once(Without(line, s)) && forall x :: x in Without(line, s) <==> x in line && x != s
    decreases |line|
  {
    if line != [] {
      WithoutKeeps(line[1..], s);
      var rest := Without(line[1..], s);
      assert line == [line[0]] + line[1..];
      if line[0] == s {
        assert Without(line, s) == rest;
      } else {
        assert Without(line, s) == [line[0]] + rest;
        assert line[0] !in rest;
      }
    }
  }

  /** Whoever leaves the line moves those behind it up. */
  lemma {:induction false} WithoutMovesUp(line: seq<nat>, s: nat, t: nat)
    requires Once(line) && t != s
    ensures Place(Without(line, s), t) == Place(line, t) - if Place(line, s) < Place(line, t) then 1 else 0
    decreases |line|
  {
    if line != [] {
      assert line == [line[0]] + line[1..];
      if line[0] == s {
        NotThere(line[1..], s);
        assert Without(line, s) == line[1..];
      } else {
        WithoutMovesUp(line[1..], s, t);
        assert Without(line, s) == [line[0]] + Without(line[1..], s);
      }
    }
  }

  lemma {:induction false} NotThere(line: seq<nat>, s: nat)
    requires s !in line
    ensures Without(line, s) == line
    decreases |line|
  {
    if line != [] {
      NotThere(line[1..], s);
      assert line == [line[0]] + line[1..];
    }
  }

  lemma LeavesLine(line: seq<nat>, t: nat, s: nat)
    requires Once(line)
    ensures Once(Without(line, t)) && (s in Without(line, t) ==> Place(Without(line, t), s) <= Place(line, s))
  {
    WithoutKeeps(line, t);
    if s != t { WithoutMovesUp(line, t, s); }
  }

  lemma TakesHead(line: seq<nat>, s: nat)
    requires Once(line) && line != []
    ensures Once(line[1..]) && (s in line[1..] ==> Place(line[1..], s) == Place(line, s) - 1)
  {
    assert line == [line[0]] + line[1..];
  }

  lemma JoinsLine(line: seq<nat>, t: nat, s: nat)
    requires Once(line) && t !in line
    ensures Once(line + [t]) && (s in line ==> Place(line + [t], s) == Place(line, s))
  {
    if s in line { JoinKeeps(line, t, s); }
  }

  lemma OtherCalls(p: Path, c: Call)
    requires !c.WaitInTheDark? && !c.StopWaiting? && !c.Leave? && !c.TakeScout?
    ensures Do(p, c).d.waiting == if c == Reset then [] else p.d.waiting
  {
  }

  lemma LineStep(p: Path, c: Call, s: nat)
    requires Once(p.d.waiting)
    ensures Once(Do(p, c).d.waiting)
    ensures s in p.d.waiting && s in Do(p, c).d.waiting ==>
      Place(Do(p, c).d.waiting, s) <= Place(p.d.waiting, s) - if c.TakeScout? && Says(p, c) then 1 else 0
  {
    var line := p.d.waiting;
    match c {
      case WaitInTheDark(t) => if t !in line { JoinsLine(line, t, s); }
      case StopWaiting(t) => LeavesLine(line, t, s);
      case Leave(t) => LeavesLine(line, t, s);
      case TakeScout(t, now) => if line != [] { TakesHead(line, s); }
      case _ =>
        OtherCalls(p, c);
        assert Once([]) by { NobodyWaits(); }
    }
    hide Once, Place, Without, Noted, AfterVerdict, ScoutNext;
  }

  lemma NobodyWaits()
    ensures Once([])
  {
  }

  lemma {:induction false} JoinKeeps(line: seq<nat>, t: nat, s: nat)
    requires s in line
    ensures Place(line + [t], s) == Place(line, s)
    decreases |line|
  {
    if line[0] != s {
      assert (line + [t])[1..] == line[1..] + [t]; 
      JoinKeeps(line[1..], t, s);
    }
  }

  /** How many turns were given in calls. */
  ghost function Turns(p: Path, calls: seq<Call>): nat
    decreases |calls|
  {
    if calls == [] then 0
    else
      var prior, c := calls[..|calls| - 1], calls[|calls| - 1];
      Turns(p, prior) + if c.TakeScout? && Says(Run(p, prior), c) then 1 else 0
  }

  /**
    The line never holds a worker twice, and a worker that stays in it moves up
    a place with every turn given: of the k before it, no more than k turns are
    given before its own.
   */
  lemma {:induction false} LineIsFair(p: Path, calls: seq<Call>, s: nat)
    requires Once(p.d.waiting)
    requires forall i :: 0 <= i <= |calls| ==> s in Run(p, calls[..i]).d.waiting
    ensures Once(Run(p, calls).d.waiting) && s in Run(p, calls).d.waiting
    ensures Place(Run(p, calls).d.waiting, s) + Turns(p, calls) <= Place(p.d.waiting, s)
    decreases |calls|
  {
    if calls == [] {
      assert calls[..0] == calls;
    } else {
      var prior := calls[..|calls| - 1];
      forall i | 0 <= i <= |prior| ensures s in Run(p, prior[..i]).d.waiting { assert prior[..i] == calls[..i]; }
      assert calls[..|calls|] == calls;
      LineIsFair(p, prior, s);
      LineStep(Run(p, prior), calls[|calls| - 1], s);
      hide Do, Says, Once;
    }
  }

  // ---- The spacing -------------------------------------------------------------------------

  /** The scout attempts reported since the path's last reset, as their starts and ends. */
  ghost function Reports(p: Path, calls: seq<Call>): set<(int, int)>
    decreases |calls|
  {
    if calls == [] then {}
    else
      var prior, c := calls[..|calls| - 1], calls[|calls| - 1];
      if c == Reset then {}
      else Reports(p, prior) + if c.ScoutDone? && HasSay(Run(p, prior), c.s) then {(c.start, c.now)} else {}
  }

  lemma NextStep(p: Path, c: Call)
    ensures c != Reset ==> p.d.nextScout <= Do(p, c).d.nextScout
    ensures c.ScoutDone? && HasSay(p, c.s) ==>
      Do(p, c).d.nextScout >= c.start + PERIOD && Do(p, c).d.nextScout >= c.now + GAP
  {
  }

  /**
    Between resets of the path every turn is taken no sooner than PERIOD after
    the start, and GAP after the end, of every scout attempt reported.
   */
  lemma {:induction false} TurnsAreSpaced(p: Path, calls: seq<Call>, start: int, end: int)
    requires (start, end) in Reports(p, calls)
    ensures Run(p, calls).d.nextScout >= start + PERIOD && Run(p, calls).d.nextScout >= end + GAP
    ensures forall s, now :: Says(Run(p, calls), TakeScout(s, now)) ==> now >= start + PERIOD && now >= end + GAP
    decreases |calls|
  {
    var prior, c := calls[..|calls| - 1], calls[|calls| - 1];
    NextStep(Run(p, prior), c);
    if (start, end) in Reports(p, prior) { TurnsAreSpaced(p, prior, start, end); }
    hide Do;
  }

  /** Who stands in line after a call: who waits is at the back, who leaves is out, and the one given a turn was at the head. */
  lemma LineIs(p: Path, c: Call, t: nat)
    requires Once(p.d.waiting)
    ensures var line, after := p.d.waiting, Do(p, c).d.waiting;
            match c
            case WaitInTheDark(s) =>
              t in after <==> t in line || t == s
            case StopWaiting(s) => t in after <==> t in line && t != s
            case Leave(s) => t in after <==> t in line && t != s
            case TakeScout(s, now) => after == if Says(p, c) then line[1..] else line
            case Reset => after == []
            case _ => after == line
    ensures c.WaitInTheDark? && c.s !in p.d.waiting ==> Do(p, c).d.waiting == p.d.waiting + [c.s]
    ensures c.TakeScout? && Says(p, c) ==> p.d.waiting != [] && p.d.waiting[0] == c.s
  {
    if c.StopWaiting? || c.Leave? { WithoutKeeps(p.d.waiting, c.s); }
    hide Noted, AfterVerdict, Without, Once;
  }
}
