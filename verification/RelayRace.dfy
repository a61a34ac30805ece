/**
  The relay race of one attempt (pkg/proxy/stream_run_with_creds.go): up to n
  concurrent candidates, each dialing, taking one of the process's Allocate
  slots and allocating under a deadline; a once, bounded channels, a head start,
  and a reaper for what is won after the caller has left. Every interleaving is
  a sequence of the atomic steps below.
 */
module RelayRace {
  import opened Sets
  import opened Wrappers

  /** allocSemaphore's capacity. */
  const ALLOC_SLOTS := 3

  /** Where one candidate's goroutine stands. */
  datatype Phase =
    | Idle      // not launched
    | Launched  // before the connect
    | Dialing   // connecting, or waiting for an Allocate slot
    | SlotHeld  // the slot taken, the Allocate not sent
    | Waiting   // in allocateWithDeadline's select
    | Aborting  // past its deadline or cancelled: waiting for the late answer
    | Got       // allocateWithDeadline returned a relay
    | Failing   // allocateWithDeadline returned an error
    | Ready     // dialAndAllocate returned a relay: about to enter the once
    | Erring    // dialAndAllocate returned an error: about to send it
    | Finished

  /**
    done is allocateWithDeadline's channel: whether the Allocate answered with a
    relay. taken and given are the semaphore slot and its releaseOnce. obtained
    and closes count what the relay granted and how often it was closed.
   */
  datatype Candidate = Candidate(phase: Phase, running: bool, done: Option<bool>, timer: bool,
                                 taken: bool, given: bool, obtained: bool, closes: nat)

  const NEW := Candidate(Idle, false, None, false, false, false, false, 0)

  /** What a candidate, or somebody holding its release or its relay, does next. */
  datatype Act =
    | Launch | Connect | DialFails | Acquire | StartAllocate(tcp: bool)
    | Answer(granted: bool)  // the Allocate's own goroutine, into done
    | TakeAnswer | GiveUp    // the select: an answer, or the deadline or a cancellation
    | LateAnswer             // after abort: a relay handed back late is closed on the spot
    | ReturnSlot             // releaseSlot at the end of dialAndAllocate's Allocate
    | GiveSlot               // the head start's or the slot timer's releaseSlot, at any moment
    | SendError | Claim | Lose
    | CloseRelay             // by the session at its end, or by the reaper

  predicate Can(c: Candidate, act: Act) {
    match act
    case Launch => c.phase == Idle
    case Connect => c.phase == Launched
    case DialFails => c.phase == Launched || c.phase == Dialing
    case Acquire => c.phase == Dialing
    case StartAllocate(_) => c.phase == SlotHeld
    case Answer(_) => c.running
    case TakeAnswer => c.phase == Waiting && c.done.Some?
    case GiveUp => c.phase == Waiting
    case LateAnswer => c.phase == Aborting && c.done.Some?
    case ReturnSlot => c.phase == Got || c.phase == Failing
    case GiveSlot => c.taken && c.phase != SlotHeld
    case SendError => c.phase == Erring
    case Claim => c.phase == Ready
    case Lose => c.phase == Ready
    case CloseRelay => c.phase == Finished
  }

  function Move(c: Candidate, act: Act): Candidate
    requires Can(c, act)
  {
    match act
    case Launch => c.(phase := Launched)
    case Connect => c.(phase := Dialing)
    case DialFails => c.(phase := Erring)
    case Acquire => c.(phase := SlotHeld, taken := true)
    case StartAllocate(tcp) => c.(phase := Waiting, running := true, timer := tcp)
    case Answer(granted) => c.(running := false, done := Some(granted), obtained := granted)
    case TakeAnswer => c.(phase := if c.done.value then Got else Failing, done := None)
    case GiveUp => c.(phase := Aborting)
    case LateAnswer => c.(phase := Failing, done := None, closes := c.closes + if c.done.value then 1 else 0)
    case ReturnSlot => c.(phase := if c.phase == Got then Ready else Erring, given := true)
    case GiveSlot => c.(given := true)
    case SendError => c.(phase := Finished)
    case Claim => c.(phase := Finished)
    case Lose => c.(phase := Finished, closes := c.closes + 1)
    case CloseRelay => c.(closes := c.closes + 1)
  }

  /** releaseOnce: only the first releaseSlot receives from the semaphore. */
  predicate Gives(c: Candidate, act: Act) {
    (act == ReturnSlot || act == GiveSlot) && !c.given
  }

  datatype Main = Selecting | InSession(index: nat) | SessionOver | AllFailed | Left

  datatype Reaper = NoReaper | Reaping | Reaped

  /** What the goroutines share: the once, the channels, the main loop's variables and the semaphore. */
  datatype Shared = Shared(
    main: Main, reaper: Reaper, sessions: nat,
    winner: Option<nat>, winCh: seq<nat>,
    errCh: seq<nat>, errored: set<nat>, failed: nat, fannedOut: bool,
    connecting: nat, connected: bool, allocating: nat, announced: bool, headRelease: bool, headStart: bool,
    cancelled: bool, inUse: int, others: nat)

  datatype State = State(n: nat, tcp: bool, cands: seq<Candidate>, sh: Shared)

  ghost predicate Init(s: State) {
    && s.n > 0 && |s.cands| == s.n
    && s.cands[0] == NEW.(phase := Launched)
    && (forall i :: 1 <= i < s.n ==> s.cands[i] == NEW)
    && s.sh == Shared(Selecting, NoReaper, 0, None, [], [], {}, 0, s.n == 1, 0, false, 0, false, false, false,
                      false, s.sh.others, s.sh.others)
    && s.sh.others <= ALLOC_SLOTS
  }

  datatype Action =
    | Own(i: nat, act: Act)
    | MainWins | MainConnecting | MainAllocating | MainHeadStart | MainError | MainLeaves
    | Reap | SessionEnds | Cancel | OthersTake | OthersGive

  /** The candidate that has the head start: the first one, over TCP. */
  predicate Head(s: State, i: nat) { s.tcp && i == 0 }

  /** What the shared state lets candidate i do: a slot to take, room in a channel, the once open or passed. */
  predicate Permits(s: State, i: nat, act: Act)
    requires i < |s.cands|
  {
    match act
    case Launch => false
    case CloseRelay => false
    case Connect => Head(s, i) ==> s.sh.connecting < 1
    case Acquire => s.sh.inUse < ALLOC_SLOTS
    case StartAllocate(tcp) => tcp == s.tcp && (Head(s, i) ==> s.sh.allocating < 1)
    case GiveSlot => s.cands[i].timer
    case SendError => |s.sh.errCh| < s.n
    case Claim => s.sh.winner == None && |s.sh.winCh| < 1
    case Lose => s.sh.winner.Some?
    case _ => true
  }

  predicate Enabled(s: State, a: Action) {
    match a
    case Own(i, act) => i < |s.cands| && Can(s.cands[i], act) && Permits(s, i, act)
    case MainWins => s.sh.main == Selecting && |s.sh.winCh| > 0
    case MainConnecting => s.sh.main == Selecting && s.sh.connecting > 0
    case MainAllocating => s.sh.main == Selecting && s.sh.allocating > 0
    case MainHeadStart => s.sh.main == Selecting && s.sh.headStart
    case MainError => s.sh.main == Selecting && |s.sh.errCh| > 0
    case MainLeaves => s.sh.main == Selecting && s.sh.cancelled
    case Reap => s.sh.reaper == Reaping && AllReturned(s.cands)
    case SessionEnds => s.sh.main.InSession?
    case Cancel => !s.sh.cancelled
    case OthersTake => s.sh.inUse < ALLOC_SLOTS
    case OthersGive => s.sh.others > 0
  }

  /** What wg.Wait waits for. */
  predicate Returned(c: Candidate) { c.phase == Idle || c.phase == Finished }

  predicate AllReturned(cs: seq<Candidate>) { forall i :: 0 <= i < |cs| ==> Returned(cs[i]) }

  /** The shared side of candidate i's step, c being the candidate before it. */
  function Share(sh: Shared, head: bool, i: nat, c: Candidate, act: Act): Shared {
    var t := sh.(inUse := sh.inUse + One(act == Acquire) - One(Gives(c, act)));
    match act
    case Connect => if head then t.(connecting := t.connecting + 1, connected := true) else t
    case StartAllocate(_) => if head then t.(allocating := t.allocating + 1, announced := true) else t
    case SendError => t.(errCh := t.errCh + [i], errored := t.errored + {i})
    case Claim => t.(winner := Some(i), winCh := t.winCh + [i])
    case _ => t
  }

  function Apply(s: State, i: nat, act: Act): State
    requires i < |s.cands| && Can(s.cands[i], act)
  {
    s.(cands := s.cands[i := Move(s.cands[i], act)], sh := Share(s.sh, Head(s, i), i, s.cands[i], act))
  }

  function FanOut(s: State): State {
    if s.sh.fannedOut then s
    else s.(sh := s.sh.(fannedOut := true),
            cands := seq(|s.cands|, i requires 0 <= i < |s.cands| =>
                           if i > 0 && Can(s.cands[i], Launch) then Move(s.cands[i], Launch) else s.cands[i]))
  }

  /** The first entry of the winner's channel, or of the session, as a candidate that can be closed. */
  predicate Closable(s: State, i: nat) { i < |s.cands| && Can(s.cands[i], CloseRelay) }

  // ---- The main loop's select, the reaper and the world outside ------------------

  function Win(s: State): State
    requires |s.sh.winCh| > 0
  {
    s.(sh := s.sh.(main := InSession(s.sh.winCh[0]), winCh := s.sh.winCh[1..], sessions := s.sh.sessions + 1))
  }

  function SeeConnecting(s: State): State
    requires s.sh.connecting > 0
  {
    s.(sh := s.sh.(connecting := s.sh.connecting - 1, headStart := s.sh.headStart || !s.sh.fannedOut))
  }

  function SeeAllocating(s: State): State
    requires s.sh.allocating > 0
  {
    s.(sh := s.sh.(allocating := s.sh.allocating - 1, headRelease := true,
                   headStart := s.sh.headStart || !s.sh.fannedOut))
  }

  /** The head start has run out: the first relay's slot goes to the next dial, and the others race. */
  function EndHeadStart(s: State): State
    requires s.sh.headRelease ==> |s.cands| > 0 && Can(s.cands[0], GiveSlot)
  {
    var t := s.(sh := s.sh.(headStart := false));
    if s.sh.fannedOut then t else FanOut(if s.sh.headRelease then Apply(t, 0, GiveSlot) else t)
  }

  /** main's state once it has read one more error, before it acts on it. */
  function ErrorRead(s: State): State
    requires |s.sh.errCh| > 0
  {
    s.(sh := s.sh.(errCh := s.sh.errCh[1..], failed := s.sh.failed + 1))
  }

  function SeeError(s: State): State
    requires |s.sh.errCh| > 0
  {
    var t := ErrorRead(s);
    if !s.sh.fannedOut then FanOut(t)
    else if t.sh.failed == s.n then t.(sh := t.sh.(main := AllFailed))
    else t
  }

  function Leave(s: State): State { s.(sh := s.sh.(main := Left, reaper := Reaping)) }

  function ReapWinner(s: State): State
    requires |s.sh.winCh| > 0 ==> Closable(s, s.sh.winCh[0])
  {
    if |s.sh.winCh| > 0 then
      Apply(s, s.sh.winCh[0], CloseRelay).(sh := s.sh.(winCh := s.sh.winCh[1..], reaper := Reaped))
    else s.(sh := s.sh.(reaper := Reaped))
  }

  function EndSession(s: State): State
    requires s.sh.main.InSession? && Closable(s, s.sh.main.index)
  {
    Apply(s, s.sh.main.index, CloseRelay).(sh := s.sh.(main := SessionOver))
  }

  function Outer(s: State, a: Action): State {
    match a
    case Cancel => s.(sh := s.sh.(cancelled := true))
    case OthersTake => s.(sh := s.sh.(others := s.sh.others + 1, inUse := s.sh.inUse + 1))
    case OthersGive => if s.sh.others > 0 then s.(sh := s.sh.(others := s.sh.others - 1, inUse := s.sh.inUse - 1)) else s
    case _ => s
  }

  /** What makes Next's use of the shared state sound; every reachable state has it. */
  predicate Steps(s: State, a: Action) {
    && Enabled(s, a) && |s.cands| > 0
    && (a == Reap && |s.sh.winCh| > 0 ==> Closable(s, s.sh.winCh[0]))
    && (a == SessionEnds ==> Closable(s, s.sh.main.index))
    && (a == MainHeadStart && s.sh.headRelease ==> Can(s.cands[0], GiveSlot))
  }

  function Next(s: State, a: Action): State
    requires Steps(s, a)
  {
    match a
    case Own(i, act) => Apply(s, i, act)
    case MainWins => Win(s)
    case MainConnecting => SeeConnecting(s)
    case MainAllocating => SeeAllocating(s)
    case MainHeadStart => EndHeadStart(s)
    case MainError => SeeError(s)
    case MainLeaves => Leave(s)
    case Reap => ReapWinner(s)
    case SessionEnds => EndSession(s)
    case _ => Outer(s, a)
  }

  // ---- The invariant ----------------------------------------------------------

  function One(b: bool): nat { if b then 1 else 0 }

  /** What a candidate's phase says about its Allocate and its slot. */
  predicate Local(c: Candidate) {
    var early := c.phase == Idle || c.phase == Launched || c.phase == Dialing;
    && (c.phase == Waiting || c.phase == Aborting <==> c.running || c.done.Some?)
    && !(c.running && c.done.Some?)
    && (c.running ==> !c.obtained)
    && (early || c.phase == SlotHeld ==> !c.timer && !c.given && !c.obtained && c.closes == 0)
    && (early ==> !c.taken)
    && (c.given ==> c.taken) && (c.timer ==> c.taken)
    && (c.phase in {SlotHeld, Waiting, Aborting, Got, Failing} ==> c.taken)
    && (c.phase in {Ready, Erring, Finished} ==> (c.taken ==> c.given))
  }

  /** References to the allocation inside the candidate's own goroutines, and closes of it. */
  function Inside(c: Candidate): nat {
    One(c.done == Some(true)) + One(c.phase == Got || c.phase == Ready) + c.closes
  }

  /** References to candidate i's allocation outside it: the winner's channel and the session. */
  function Outside(sh: Shared, i: nat): nat {
    One(i in sh.winCh) + One(sh.main == InSession(i))
  }

  /** An allocation obtained is held in exactly one place, or was closed exactly once. */
  predicate Owned(sh: Shared, i: nat, c: Candidate) {
    Inside(c) + Outside(sh, i) == One(c.obtained)
  }

  /** The once, its channel and what was made of the winner. */
  ghost predicate Won(s: State) {
    var sh := s.sh;
    && (sh.winner.None? ==> sh.winCh == [] && !sh.main.InSession? && sh.main != SessionOver)
    && (sh.winner.Some? ==>
          && sh.winner.value < |s.cands| && s.cands[sh.winner.value].phase == Finished
          && sh.winner.value !in sh.errored
          && (sh.winCh == [] || sh.winCh == [sh.winner.value]))
    && sh.sessions == One(sh.main.InSession? || sh.main == SessionOver)
    && (sh.main.InSession? ==> sh.winner == Some(sh.main.index))
    && (sh.main.InSession? || sh.main == SessionOver ==> sh.winCh == [])
    && (sh.main == Selecting && sh.winner.Some? ==> sh.winCh == [sh.winner.value])
    && (sh.reaper == Reaped ==> sh.winCh == [] && AllReturned(s.cands))
    && (sh.reaper != NoReaper <==> sh.main == Left)
  }

  /** The errors: exactly the candidates that returned, but for the winner and those that lost to it. */
  ghost predicate Errors(cs: seq<Candidate>, errored: set<nat>, won: bool) {
    && (forall i :: i in errored ==> i < |cs| && cs[i].phase == Finished)
    && (forall i :: 0 <= i < |cs| && cs[i].phase == Finished ==> i in errored || won)
  }

  /** One error per candidate that failed, in the channel or counted; the last of all ends the race. */
  ghost predicate Failures(s: State) {
    var sh := s.sh;
    && Errors(s.cands, sh.errored, sh.winner.Some?)
    && |sh.errored| == sh.failed + |sh.errCh|
    && (sh.main == Selecting ==> sh.failed < s.n)
    && (sh.main == AllFailed ==> sh.failed == s.n)
  }

  predicate AllLaunched(cs: seq<Candidate>) { forall i :: 0 <= i < |cs| ==> cs[i].phase != Idle }

  predicate OnlyHead(cs: seq<Candidate>) { forall i :: 1 <= i < |cs| ==> cs[i] == NEW }

  /** Before the fan-out only the first candidate runs, after it every one does. */
  ghost predicate Fanned(s: State) {
    && (s.sh.fannedOut ==> AllLaunched(s.cands))
    && (!s.sh.fannedOut ==> s.n > 1 && s.sh.failed == 0 && OnlyHead(s.cands))
  }

  /** The head start's two channels, and the release main may hold. */
  predicate Channels(sh: Shared, head: Candidate) {
    && head.phase != Idle
    && (sh.connecting > 0 ==> sh.connecting == 1 && sh.connected)
    && (sh.connected ==> head.phase != Launched)
    && sh.allocating + One(sh.headRelease) == One(sh.announced)
    && (sh.announced ==> head.taken && head.phase != SlotHeld)
  }

  ghost function Holding(cs: seq<Candidate>): set<nat> {
    set i: nat | i < |cs| && Holds(cs[i])
  }

  /** The slots in use are those of other attempts and those taken here and not given back. */
  ghost predicate Slots(s: State) {
    s.sh.inUse == s.sh.others + |Holding(s.cands)| && s.sh.inUse <= ALLOC_SLOTS
  }

  ghost predicate AllLocal(cs: seq<Candidate>) { forall i :: 0 <= i < |cs| ==> Local(cs[i]) }

  ghost predicate AllOwned(sh: Shared, cs: seq<Candidate>) { forall i :: 0 <= i < |cs| ==> Owned(sh, i, cs[i]) }

  ghost predicate Inv(s: State) {
    && s.n > 0 && |s.cands| == s.n
    && AllLocal(s.cands) && AllOwned(s.sh, s.cands)
    && Won(s) && Failures(s) && Fanned(s) && Channels(s.sh, s.cands[0]) && Slots(s)
  }

  lemma MoveKeepsLocal(c: Candidate, act: Act)
    requires Local(c) && Can(c, act)
    ensures Local(Move(c, act))
  {
  }

  /** Only the claim lets a reference out, and only an outside holder's close needs one to come in. */
  lemma MoveKeepsInside(c: Candidate, act: Act)
    requires Local(c) && Can(c, act) && Inside(c) <= One(c.obtained)
    ensures Inside(Move(c, act)) + One(act == Claim) + One(c.obtained)
         == Inside(c) + One(Move(c, act).obtained) + One(act == CloseRelay)
  {
  }

  predicate Holds(c: Candidate) { c.taken && !c.given }

  lemma HoldingUpdate(cs: seq<Candidate>, i: nat, c': Candidate)
    requires i < |cs|
    ensures |Holding(cs[i := c'])| == |Holding(cs)| - One(Holds(cs[i])) + One(Holds(c'))
  {
    var cs' := cs[i := c'];
    if Holds(cs[i]) == Holds(c') {
      assert Holding(cs') == Holding(cs);
    } else if Holds(c') {
      assert Holding(cs') == Holding(cs) + {i};
    } else {
      assert Holding(cs') == Holding(cs) - {i};
    }
  }

  /** Taking a slot adds its candidate to the holders, and exactly the first release takes it out. */
  lemma MoveHolds(cs: seq<Candidate>, i: nat, act: Act)
    requires i < |cs| && Local(cs[i]) && Can(cs[i], act)
    ensures |Holding(cs[i := Move(cs[i], act)])| == |Holding(cs)| + One(act == Acquire) - One(Gives(cs[i], act))
  {
    hide Holding;
    HoldingUpdate(cs, i, Move(cs[i], act));
  }

  // ---- A candidate's step keeps the invariant -----------------------------------

  /** An enabled step of candidate i, or the head start's release of its slot. */
  predicate May(s: State, i: nat, act: Act) {
    i < |s.cands| && Can(s.cands[i], act) && (act == GiveSlot || Permits(s, i, act))
  }

  lemma OwnOwned(s: State, i: nat, act: Act)
    requires Inv(s) && May(s, i, act)
    ensures var t := Apply(s, i, act);
            AllLocal(t.cands) && AllOwned(t.sh, t.cands)
  {
    var t := Apply(s, i, act);
    MoveKeepsLocal(s.cands[i], act);
    MoveKeepsInside(s.cands[i], act);
    hide Local, Inside, Move, Can, Won, Failures, Fanned, Channels, Slots;
    assert t.cands[i] == Move(s.cands[i], act);
    forall j | 0 <= j < |t.cands| ensures Local(t.cands[j]) && Owned(t.sh, j, t.cands[j]) {
      assert Owned(s.sh, j, s.cands[j]);
      if j != i { assert t.cands[j] == s.cands[j]; }
    }
  }

  lemma OwnWon(s: State, i: nat, act: Act)
    requires Inv(s) && May(s, i, act)
    ensures Won(Apply(s, i, act))
  {
    hide Owned, Fanned, Channels, Slots;
    var t := Apply(s, i, act);
    assert act == Claim ==> i !in s.sh.errored;
    hide Failures;
    assert Local(s.cands[i]);
    assert Returned(s.cands[i]) ==> act == GiveSlot;
    hide Local;
    assert forall j :: 0 <= j < |t.cands| && j != i ==> t.cands[j] == s.cands[j];
  }

  lemma OwnErrors(s: State, i: nat, act: Act)
    requires Inv(s) && May(s, i, act)
    ensures var t := Apply(s, i, act); Errors(t.cands, t.sh.errored, t.sh.winner.Some?)
  {
    hide Local, Owned, Won, Fanned, Channels, Slots;
    var t := Apply(s, i, act);
    var c, c' := s.cands[i], Move(s.cands[i], act);
    assert c.phase == Finished ==> c'.phase == Finished || act.Answer? || act.GiveSlot?;
    assert act.Answer? ==> c'.phase == c.phase;
    assert c'.phase == Finished ==> c.phase == Finished || act in {SendError, Claim, Lose};
    hide Move, Can;
    assert forall j :: 0 <= j < |t.cands| && j != i ==> t.cands[j] == s.cands[j];
  }

  lemma OwnFailures(s: State, i: nat, act: Act)
    requires Inv(s) && May(s, i, act)
    ensures Failures(Apply(s, i, act))
  {
    OwnErrors(s, i, act);
    hide AllLocal, AllOwned, Won, Fanned, Channels, Slots;
    assert act == SendError ==> s.cands[i].phase != Finished && i !in s.sh.errored;
    hide Move, Errors;
  }

  /** Nothing moves a candidate that was never launched but its launch. */
  lemma NewIsIdle(act: Act)
    ensures Can(NEW, act) ==> act == Launch
  {
  }

  lemma OwnFanned(s: State, i: nat, act: Act)
    requires Inv(s) && May(s, i, act)
    ensures Fanned(Apply(s, i, act))
  {
    hide Owned, Won, Failures, Channels, Slots;
    var t := Apply(s, i, act);
    assert forall j :: 0 <= j < |t.cands| && j != i ==> t.cands[j] == s.cands[j];
    NewIsIdle(act);
  }

  lemma OwnChannels(s: State, i: nat, act: Act)
    requires Inv(s) && May(s, i, act)
    ensures Channels(Apply(s, i, act).sh, Apply(s, i, act).cands[0])
  {
    hide Owned, Won, Failures, Fanned, Slots;
    assert Local(s.cands[i]);
  }

  lemma OwnSlots(s: State, i: nat, act: Act)
    requires Inv(s) && May(s, i, act)
    ensures Slots(Apply(s, i, act))
  {
    hide Owned, Won, Failures, Fanned, Channels, Holding;
    assert Local(s.cands[i]);
    MoveHolds(s.cands, i, act);
  }

  lemma OwnStep(s: State, i: nat, act: Act)
    requires Inv(s) && May(s, i, act)
    ensures Inv(Apply(s, i, act))
  {
    OwnOwned(s, i, act);
    OwnWon(s, i, act);
    OwnFailures(s, i, act);
    OwnFanned(s, i, act);
    OwnChannels(s, i, act);
    OwnSlots(s, i, act);
    hide Local, Owned, Won, Failures, Fanned, Channels, Slots, Move, Can, Share;
  }

  // ---- The main loop's and the reaper's steps -------------------------------------

  /** Everything but Fanned, which the fan-out establishes. */
  ghost predicate InvUnfanned(s: State) {
    && s.n > 0 && |s.cands| == s.n
    && AllLocal(s.cands) && AllOwned(s.sh, s.cands)
    && Won(s) && Failures(s) && Channels(s.sh, s.cands[0]) && Slots(s)
  }

  lemma FanOutStep(s: State)
    requires InvUnfanned(s) && !s.sh.fannedOut && s.sh.main == Selecting
    requires OnlyHead(s.cands)
    ensures Inv(FanOut(s))
  {
    var t := FanOut(s);
    assert forall i :: 1 <= i < |s.cands| ==> t.cands[i] == NEW.(phase := Launched);
    assert t.cands[0] == s.cands[0];
    assert Holding(t.cands) == Holding(s.cands);
    FanOutOwned(s, t);
    FanOutWon(s, t);
  }

  lemma FanOutOwned(s: State, t: State)
    requires InvUnfanned(s) && |t.cands| == |s.cands| && t.cands[0] == s.cands[0]
    requires t.sh == s.sh.(fannedOut := true)
    requires forall i :: 1 <= i < |s.cands| ==> s.cands[i] == NEW && t.cands[i] == NEW.(phase := Launched)
    ensures AllLocal(t.cands) && AllOwned(t.sh, t.cands)
  {
    hide Won, Failures, Channels, Slots;
    forall i | 0 <= i < |t.cands| ensures Local(t.cands[i]) && Owned(t.sh, i, t.cands[i]) {
      assert Owned(s.sh, i, s.cands[i]);
    }
  }

  lemma FanOutWon(s: State, t: State)
    requires InvUnfanned(s) && |t.cands| == |s.cands| && t.n == s.n && t.cands[0] == s.cands[0]
    requires t.sh == s.sh.(fannedOut := true)
    requires forall i :: 1 <= i < |s.cands| ==> s.cands[i] == NEW && t.cands[i] == NEW.(phase := Launched)
    ensures s.sh.reaper != Reaped ==> Won(t)
    ensures Failures(t)
  {
    hide Local, Owned, Channels, Slots;
  }

  /** A shared step that leaves every candidate's outside references as they are keeps its ownership. */
  lemma SameOutside(s: State, sh: Shared)
    requires Inv(s)
    requires forall i :: 0 <= i < |s.cands| ==> Outside(sh, i) == Outside(s.sh, i)
    ensures AllOwned(sh, s.cands)
  {
    hide Won, Failures, Fanned, Channels, Slots, Outside, Inside, Local;
    forall i | 0 <= i < |s.cands| ensures Owned(sh, i, s.cands[i]) {
      assert Owned(s.sh, i, s.cands[i]);
    }
  }

  lemma MainWinsStep(s: State)
    requires Inv(s) && Enabled(s, MainWins)
    ensures Inv(Win(s))
  {
    hide AllLocal, AllOwned, Holding, Errors, AllLaunched, OnlyHead, AllReturned, Channels, Slots;
    MainWinsOwned(s);
  }

  lemma MainWinsOwned(s: State)
    requires Inv(s) && Enabled(s, MainWins)
    ensures AllOwned(Win(s).sh, s.cands) && Channels(Win(s).sh, s.cands[0]) && Slots(Win(s))
  {
    var sh := Win(s).sh;
    assert s.sh.winCh == [s.sh.winCh[0]] && sh.winCh == [];
    hide AllLocal, Failures, Fanned, Holding, AllReturned;
    SameOutside(s, sh);
  }

  lemma SeeStep(s: State)
    requires Inv(s)
    ensures s.sh.connecting > 0 ==> Inv(SeeConnecting(s))
    ensures s.sh.allocating > 0 ==> Inv(SeeAllocating(s))
  {
    if s.sh.connecting > 0 { SameOutside(s, SeeConnecting(s).sh); }
    if s.sh.allocating > 0 { SameOutside(s, SeeAllocating(s).sh); }
    hide AllLocal, AllOwned, Local, Owned, Outside, Holding, Errors, AllLaunched, OnlyHead, AllReturned;
  }

  lemma OuterStep(s: State, a: Action)
    requires Inv(s) && Enabled(s, a) && a in {Cancel, OthersTake, OthersGive}
    ensures Inv(Outer(s, a))
  {
    SameOutside(s, Outer(s, a).sh);
    hide AllLocal, AllOwned, Local, Owned, Outside, Holding, Errors, AllLaunched, OnlyHead, AllReturned;
  }

  lemma LeaveStep(s: State)
    requires Inv(s) && Enabled(s, MainLeaves)
    ensures Inv(Leave(s))
  {
    SameOutside(s, Leave(s).sh);
    hide AllLocal, AllOwned, Local, Owned, Outside, Holding, Errors, AllLaunched, OnlyHead, AllReturned;
  }

  lemma MainHeadStartStep(s: State)
    requires Inv(s) && Enabled(s, MainHeadStart)
    ensures Steps(s, MainHeadStart) && Inv(EndHeadStart(s))
  {
    var t := s.(sh := s.sh.(headStart := false));
    SameOutside(s, t.sh);
    hide AllLocal, AllOwned, Local, Owned, Outside, Holding, Errors, AllLaunched, OnlyHead, AllReturned, Move;
    assert Inv(t);
    if !s.sh.fannedOut {
      if s.sh.headRelease {
        OwnStep(t, 0, GiveSlot);
        HeadGives(t);
        FanOutStep(Apply(t, 0, GiveSlot));
      } else {
        FanOutStep(t);
      }
    }
  }

  lemma HeadGives(s: State)
    requires |s.cands| > 0 && Can(s.cands[0], GiveSlot)
    ensures var t := Apply(s, 0, GiveSlot);
            && t.sh == s.sh.(inUse := t.sh.inUse) && |t.cands| == |s.cands|
            && (OnlyHead(s.cands) ==> OnlyHead(t.cands))
  {
  }

  lemma ErrorReadStep(s: State)
    requires Inv(s) && Enabled(s, MainError)
    ensures var t := ErrorRead(s);
            && AllOwned(t.sh, t.cands) && Won(t) && Channels(t.sh, t.cands[0]) && Slots(t)
            && (t.sh.failed < t.n ==> Failures(t))
            && |t.sh.errored| == t.sh.failed + |t.sh.errCh|
            && (!s.sh.fannedOut ==> t.sh.failed < t.n)
            && t.sh.failed <= t.n
  {
    SameOutside(s, ErrorRead(s).sh);
    hide AllLocal, AllOwned, Local, Owned, Outside, Holding, Errors, AllLaunched, OnlyHead, AllReturned;
  }

  lemma AllFailedStep(s: State)
    requires Inv(s) && Enabled(s, MainError) && s.sh.fannedOut && ErrorRead(s).sh.failed == s.n
    ensures Inv(ErrorRead(s).(sh := ErrorRead(s).sh.(main := AllFailed)))
  {
    ErrorReadStep(s);
    SameOutside(s, ErrorRead(s).sh.(main := AllFailed));
    hide AllLocal, AllOwned, Local, Owned, Outside, Holding, Errors, AllLaunched, OnlyHead, AllReturned;
  }

  lemma MainErrorStep(s: State)
    requires Inv(s) && Enabled(s, MainError)
    ensures Inv(SeeError(s))
  {
    ErrorReadStep(s);
    hide AllLocal, AllOwned, Won, Failures, Channels, Slots, Errors, AllLaunched, OnlyHead, AllReturned;
    if !s.sh.fannedOut {
      FanOutStep(ErrorRead(s));
    } else if ErrorRead(s).sh.failed == s.n {
      AllFailedStep(s);
    }
  }

  /** A close moves no phase. */
  lemma CloseKeepsPhases(cs: seq<Candidate>, w: nat, errored: set<nat>)
    requires w < |cs| && Can(cs[w], CloseRelay) && AllLocal(cs)
    ensures var cs' := cs[w := Move(cs[w], CloseRelay)];
            && (Errors(cs, errored, true) ==> Errors(cs', errored, true))
            && (AllReturned(cs) ==> AllReturned(cs'))
            && (AllLaunched(cs) ==> AllLaunched(cs'))
            && (OnlyHead(cs) ==> w == 0 && OnlyHead(cs'))
            && cs'[0].phase == cs[0].phase && cs'[0].taken == cs[0].taken
  {
    assert cs[w] != NEW;
  }

  /** The close of an allocation whose last outside reference the step takes. */
  lemma CloseStep(s: State, w: nat, sh: Shared)
    requires Inv(s) && Closable(s, w)
    requires Outside(sh, w) + 1 == Outside(s.sh, w)
    requires forall i :: 0 <= i < |s.cands| && i != w ==> Outside(sh, i) == Outside(s.sh, i)
    ensures var cs := s.cands[w := Move(s.cands[w], CloseRelay)];
            AllLocal(cs) && AllOwned(sh, cs)
  {
    assert Owned(s.sh, w, s.cands[w]);
    hide Won, Failures, Fanned, Channels, Slots, Outside, Holding;
    MoveKeepsLocal(s.cands[w], CloseRelay);
    MoveKeepsInside(s.cands[w], CloseRelay);
    hide Inside, Local, Move, Can;
    var cs := s.cands[w := Move(s.cands[w], CloseRelay)];
    forall i | 0 <= i < |cs| ensures Local(cs[i]) && Owned(sh, i, cs[i]) {
      assert Owned(s.sh, i, s.cands[i]);
    }
  }

  /** What a close leaves of the rest of the invariant. */
  lemma CloseKeepsRest(s: State, w: nat, sh: Shared)
    requires Inv(s) && Closable(s, w) && s.sh.winner.Some?
    requires sh == s.sh.(main := sh.main, winCh := sh.winCh, reaper := sh.reaper)
    requires s.sh.main != Selecting && s.sh.main != AllFailed && sh.main != Selecting && sh.main != AllFailed
    ensures var t := Apply(s, w, CloseRelay).(sh := sh);
            Failures(t) && Fanned(t) && Channels(t.sh, t.cands[0])
            && (AllReturned(s.cands) ==> AllReturned(t.cands)) && t.cands[sh.winner.value].phase == Finished
  {
    hide AllLocal, AllOwned, Holding, Errors, AllLaunched, OnlyHead, AllReturned, Slots;
    CloseKeepsPhases(s.cands, w, s.sh.errored);
  }

  /** The one outside reference is the winner's: taking it from the channel or the session leaves none. */
  lemma OutsideTaken(s: State, w: nat, sh: Shared)
    requires Inv(s) && (s.sh.winCh == [w] || s.sh.main == InSession(w))
    requires sh.winCh == [] && !sh.main.InSession?
    requires s.sh.main.InSession? ==> s.sh.winCh == []
    ensures s.sh.winner == Some(w) && Closable(s, w)
    ensures Outside(sh, w) + 1 == Outside(s.sh, w)
    ensures forall i :: 0 <= i < |s.cands| && i != w ==> Outside(sh, i) == Outside(s.sh, i)
  {
  }

  /** Candidate w is the winner, and the step takes its last outside reference to close it. */
  ghost predicate TakesWinner(s: State, w: nat, sh: Shared) {
    && (s.sh.winCh == [w] || s.sh.main == InSession(w))
    && sh == s.sh.(main := sh.main, winCh := [], reaper := sh.reaper)
    && (|| (s.sh.main == Left && s.sh.reaper == Reaping && sh.main == Left && sh.reaper == Reaped && AllReturned(s.cands))
        || (s.sh.main == InSession(w) && sh.main == SessionOver && sh.reaper == s.sh.reaper))
  }

  lemma CloseKeepsWon(s: State, w: nat, sh: Shared)
    requires Inv(s) && Closable(s, w) && TakesWinner(s, w, sh) && s.sh.winner == Some(w)
    ensures Won(Apply(s, w, CloseRelay).(sh := sh))
  {
    CloseKeepsPhases(s.cands, w, s.sh.errored);
    hide AllLocal, AllOwned, Failures, Fanned, Channels, Slots, AllReturned, Errors, AllLaunched, OnlyHead;
  }

  lemma CloseKeepsSlots(s: State, w: nat, sh: Shared)
    requires Inv(s) && Closable(s, w)
    requires sh == s.sh.(main := sh.main, winCh := sh.winCh, reaper := sh.reaper)
    ensures Slots(Apply(s, w, CloseRelay).(sh := sh))
  {
    hide AllOwned, Won, Failures, Fanned, Channels, Holding;
    assert Local(s.cands[w]);
    MoveHolds(s.cands, w, CloseRelay);
  }

  lemma CloseWinnerStep(s: State, w: nat, sh: Shared)
    requires Inv(s) && TakesWinner(s, w, sh)
    ensures Closable(s, w)
    ensures Inv(Apply(s, w, CloseRelay).(sh := sh))
  {
    OutsideTaken(s, w, sh);
    hide AllLocal, AllOwned, Outside, Failures, Fanned, Channels, Holding, AllReturned, Move, Can, Share;
    CloseStep(s, w, sh);
    CloseKeepsWon(s, w, sh);
    CloseKeepsRest(s, w, sh);
    CloseKeepsSlots(s, w, sh);
    hide Won, Slots;
  }

  lemma ReapStep(s: State)
    requires Inv(s) && Enabled(s, Reap)
    ensures Steps(s, Reap) && Inv(ReapWinner(s))
  {
    if |s.sh.winCh| > 0 {
      assert s.sh.winCh == [s.sh.winCh[0]];
      CloseWinnerStep(s, s.sh.winCh[0], s.sh.(winCh := s.sh.winCh[1..], reaper := Reaped));
      hide Inv;
    } else {
      ReapNothingStep(s);
      hide Inv;
    }
  }

  lemma ReapNothingStep(s: State)
    requires Inv(s) && Enabled(s, Reap) && s.sh.winCh == []
    ensures Inv(s.(sh := s.sh.(reaper := Reaped)))
  {
    SameOutside(s, s.sh.(reaper := Reaped));
    hide AllLocal, AllOwned, Local, Owned, Outside, Holding, Errors, AllLaunched, OnlyHead, AllReturned;
  }

  lemma SessionEndsStep(s: State)
    requires Inv(s) && Enabled(s, SessionEnds)
    ensures Steps(s, SessionEnds) && Inv(EndSession(s))
  {
    assert s.sh.winCh == [];
    CloseWinnerStep(s, s.sh.main.index, s.sh.(main := SessionOver));
    hide Inv;
  }

  lemma CanStep(s: State, a: Action)
    requires Inv(s) && Enabled(s, a) && a != Reap && a != SessionEnds && a != MainHeadStart
    ensures Steps(s, a)
  {
    hide AllLocal, AllOwned, Won, Failures, Fanned, Slots, Apply, FanOut;
  }

  /** Every step can be taken from a good state, and leads to one. */
  lemma Step(s: State, a: Action)
    requires Inv(s) && Enabled(s, a)
    ensures Steps(s, a)
    ensures Inv(Next(s, a))
  {
    if a != Reap && a != SessionEnds && a != MainHeadStart { CanStep(s, a); }
    hide Inv, Steps, Apply, FanOut, Outer;
    match a
    case Own(i, act) => OwnStep(s, i, act);
    case MainWins => MainWinsStep(s);
    case MainConnecting => SeeStep(s);
    case MainAllocating => SeeStep(s);
    case MainHeadStart => MainHeadStartStep(s);
    case MainError => MainErrorStep(s);
    case MainLeaves => LeaveStep(s);
    case Reap => ReapStep(s);
    case SessionEnds => SessionEndsStep(s);
    case _ => OuterStep(s, a);
  }

  // ---- Whole runs ----------------------------------------------------------------

  /** A run of the race: each state follows the one before by an enabled step. */
  ghost predicate IsRun(states: seq<State>, actions: seq<Action>) {
    && |states| == |actions| + 1
    && Init(states[0])
    && forall k :: 0 <= k < |actions| ==> Steps(states[k], actions[k]) && states[k + 1] == Next(states[k], actions[k])
  }

  lemma InitInv(s: State)
    requires Init(s)
    ensures Inv(s)
  {
    assert Holding(s.cands) == {};
  }

  lemma {:induction false} RunInv(states: seq<State>, actions: seq<Action>, k: nat)
    requires IsRun(states, actions) && k < |states|
    ensures Inv(states[k])
  {
    if k == 0 {
      InitInv(states[0]);
    } else {
      RunInv(states, actions, k - 1);
      Step(states[k - 1], actions[k - 1]);
    }
  }

  /**
    In every reachable state at most one session has started; every allocation
    obtained is held in exactly one place and open, or held nowhere and closed
    exactly once; no slot is given back that was not taken, and a candidate that
    has returned has given its own back.
   */
  lemma RaceIsSafe(states: seq<State>, actions: seq<Action>, k: nat, i: nat)
    requires IsRun(states, actions) && k < |states| && i < states[k].n
    ensures var s := states[k];
            && |s.cands| == s.n
            && s.sh.sessions <= 1
            && Inside(s.cands[i]) + Outside(s.sh, i) == One(s.cands[i].obtained)
            && (s.cands[i].given ==> s.cands[i].taken)
            && (Returned(s.cands[i]) && s.cands[i].taken ==> s.cands[i].given)
            && s.sh.inUse == s.sh.others + |Holding(s.cands)| <= ALLOC_SLOTS
  {
    RunInv(states, actions, k);
    var s := states[k];
    assert Local(s.cands[i]) && Owned(s.sh, i, s.cands[i]);
  }

  /**
    Once every candidate has returned and the caller is done (the session over,
    every relay failed, or the reaper through), every allocation obtained has
    been closed exactly once and every slot taken here given back.
   */
  lemma NothingLeaks(states: seq<State>, actions: seq<Action>, k: nat)
    requires IsRun(states, actions) && k < |states|
    requires AllReturned(states[k].cands)
    requires states[k].sh.main in {SessionOver, AllFailed} || states[k].sh.reaper == Reaped
    ensures forall i :: 0 <= i < |states[k].cands| ==> states[k].cands[i].closes == One(states[k].cands[i].obtained)
    ensures states[k].sh.inUse == states[k].sh.others
  {
    var s := states[k];
    RunInv(states, actions, k);
    if s.sh.main == AllFailed {
      AllFailedHasNoWinner(s);
    }
    assert s.sh.winCh == [];
    forall i | 0 <= i < |s.cands| ensures s.cands[i].closes == One(s.cands[i].obtained) && !Holds(s.cands[i]) {
      assert Returned(s.cands[i]) && Local(s.cands[i]) && Owned(s.sh, i, s.cands[i]);
    }
    assert Holding(s.cands) == {};
  }

  lemma ErrorsWithin(s: State)
    requires Inv(s)
    ensures s.sh.errored <= Below(s.n) && |s.sh.errored| <= s.n
  {
    SubsetSize(s.sh.errored, Below(s.n));
  }

  lemma AllFailedHasNoWinner(s: State)
    requires Inv(s) && s.sh.main == AllFailed
    ensures s.sh.winner.None? && s.sh.winCh == []
  {
    ErrorsWithin(s);
    SubsetSize(s.sh.errored, Below(s.n));
    assert forall i :: i in Below(s.n) ==> i in s.sh.errored;
  }

  /**
    While main waits there is always something for it to wait for: a candidate
    still running, an error or a winner in a channel.
   */
  lemma MainNeverWaitsForNothing(states: seq<State>, actions: seq<Action>, k: nat)
    requires IsRun(states, actions) && k < |states| && states[k].sh.main == Selecting
    ensures |states[k].sh.winCh| > 0 || |states[k].sh.errCh| > 0 || !AllReturned(states[k].cands)
  {
    var s := states[k];
    RunInv(states, actions, k);
    if AllReturned(s.cands) && s.sh.winCh == [] {
      assert s.sh.winner.None?;
      if s.sh.fannedOut {
        assert forall i: nat :: i < s.n ==> s.cands[i].phase == Finished && i in s.sh.errored;
        SubsetSize(Below(s.n), s.sh.errored);
      } else {
        assert Returned(s.cands[0]);
        assert 0 in s.sh.errored;
      }
    }
  }

  /** What candidate i does next, unless it waits on the network or for a slot. */
  function NextAct(s: State, i: nat): Act
    requires i < |s.cands|
  {
    var c := s.cands[i];
    match c.phase
    case Launched => Connect
    case SlotHeld => StartAllocate(s.tcp)
    case Waiting => TakeAnswer
    case Aborting => LateAnswer
    case Erring => SendError
    case Ready => if s.sh.winner == None then Claim else Lose
    case _ => ReturnSlot
  }

  lemma NotBlocked(s: State, i: nat)
    requires s.n > 0 && |s.cands| == s.n && i < s.n && Local(s.cands[i])
    requires Won(s) && Channels(s.sh, s.cands[0]) && (s.cands[i].phase == Erring ==> |s.sh.errCh| < s.n)
    ensures var c := s.cands[i];
            Returned(c) || c.phase == Dialing || c.running || Enabled(s, Own(i, NextAct(s, i)))
  {
    hide Holding;
  }

  /**
    No candidate is ever stuck: short of an answer from the network or of a free
    slot, whatever it means to send finds room and the once lets it through.
   */
  lemma CandidatesNeverBlock(states: seq<State>, actions: seq<Action>, k: nat, i: nat)
    requires IsRun(states, actions) && k < |states| && i < |states[k].cands|
    ensures var c := states[k].cands[i];
            Returned(c) || c.phase == Dialing || c.running || Enabled(states[k], Own(i, NextAct(states[k], i)))
  {
    var s := states[k];
    RunInv(states, actions, k);
    if s.cands[i].phase == Erring { ErrChHasRoom(s, i); }
    assert Local(s.cands[i]);
    hide AllLocal, AllOwned, Local, Won, Channels, Failures, Fanned, Slots, Enabled, NextAct, IsRun;
    NotBlocked(s, i);
  }

  lemma ErrChHasRoom(s: State, i: nat)
    requires Inv(s) && i < |s.cands| && s.cands[i].phase == Erring
    ensures |s.sh.errCh| < s.n
  {
    ErrorsWithin(s);
    SubsetSize(s.sh.errored, Below(s.n));
    assert i in Below(s.n) && i !in s.sh.errored;
  }

  // ---- What the main loop's steps come to -----------------------------------------------

  /** Some relay has not been dialed. */
  ghost predicate SomeIdle(s: State) { exists i :: 0 <= i < |s.cands| && s.cands[i].phase == Idle }

  /** Every relay that had not been dialed is, and nothing else is moved, but perhaps the first. */
  ghost predicate OthersLaunched(s: State, t: State) {
    && |t.cands| == |s.cands|
    && forall i :: 0 < i < |s.cands| ==>
      t.cands[i] == if s.cands[i].phase == Idle then s.cands[i].(phase := Launched) else s.cands[i]
  }

  lemma IdleUntilFannedOut(s: State)
    requires Inv(s)
    ensures SomeIdle(s) <==> !s.sh.fannedOut
  {
    if !s.sh.fannedOut { assert s.cands[1].phase == Idle; }
    hide AllLocal, AllOwned, Won, Failures, Channels, Slots;
  }

  lemma StepOf(states: seq<State>, actions: seq<Action>, k: nat)
    requires IsRun(states, actions) && k < |actions|
    ensures Inv(states[k]) && Steps(states[k], actions[k]) && states[k + 1] == Next(states[k], actions[k])
  {
    RunInv(states, actions, k);
  }

  /** What fanning out leaves: every relay dialed, the first as it was, and nothing else. */
  ghost predicate Raced(s: State, t: State) { !SomeIdle(t) && OthersLaunched(s, t) }

  lemma FanOutRaces(s: State, u: State)
    requires |u.cands| == |s.cands| > 0 && u.cands[0].phase != Idle && !u.sh.fannedOut
    requires forall i :: 0 < i < |s.cands| ==> u.cands[i] == s.cands[i]
    ensures Raced(s, FanOut(u)) && FanOut(u).cands[0] == u.cands[0] && FanOut(u).sh == u.sh.(fannedOut := true)
  {
    var t := FanOut(u);
    assert forall i :: 0 < i < |s.cands| ==> u.cands[i].phase != Idle || Can(u.cands[i], Launch);
    assert forall i :: 0 <= i < |t.cands| ==> t.cands[i].phase != Idle;
  }

  lemma AlreadyRaced(s: State, t: State)
    requires t.cands == s.cands && !SomeIdle(s)
    ensures Raced(s, t)
  {
    assert forall i :: 0 <= i < |s.cands| ==> s.cands[i].phase != Idle;
  }

  lemma HeadIsDialed(s: State)
    requires Inv(s)
    ensures |s.cands| > 0 && s.cands[0].phase != Idle && (!s.sh.fannedOut ==> s.n > 1 && s.sh.failed == 0)
  {
    hide AllLocal, AllOwned, Won, Failures, Slots;
  }

  lemma HeadStartOf(s: State)
    requires Inv(s) && Steps(s, MainHeadStart)
    ensures var t := EndHeadStart(s);
            && Raced(s, t) && t.sh.main == Selecting && !t.sh.headStart
            && t.cands[0] == (if SomeIdle(s) && s.sh.headRelease then s.cands[0].(given := true) else s.cands[0])
            && t.sh.inUse == s.sh.inUse - (if SomeIdle(s) && s.sh.headRelease && !s.cands[0].given then 1 else 0)
  {
    hide Inv, SomeIdle, Raced, FanOut;
    IdleUntilFannedOut(s);
    HeadIsDialed(s);
    var t := s.(sh := s.sh.(headStart := false));
    if s.sh.fannedOut {
      AlreadyRaced(s, t);
    } else {
      FanOutRaces(s, if s.sh.headRelease then Apply(t, 0, GiveSlot) else t);
    }
  }

  /**
    The end of the head start races every relay: none is left undialed. With the
    first relay's Allocate sent its slot is given to the next dial, unless it had
    been given before; its Allocate runs on either way.
   */
  lemma HeadStartEnds(states: seq<State>, actions: seq<Action>, k: nat)
    requires IsRun(states, actions) && k < |actions| && actions[k] == MainHeadStart
    ensures var s, t := states[k], states[k + 1];
            && Raced(s, t) && t.sh.main == Selecting && !t.sh.headStart
            && t.cands[0] == (if SomeIdle(s) && s.sh.headRelease then s.cands[0].(given := true) else s.cands[0])
            && t.sh.inUse == s.sh.inUse - (if SomeIdle(s) && s.sh.headRelease && !s.cands[0].given then 1 else 0)
  {
    StepOf(states, actions, k);
    hide IsRun, Inv, Raced, SomeIdle, Steps, EndHeadStart;
    HeadStartOf(states[k]);
  }

  lemma ErrorReadOf(s: State)
    requires Inv(s) && Steps(s, MainError)
    ensures var t := SeeError(s);
            && Raced(s, t) && t.cands[0] == s.cands[0] && t.sh.inUse == s.sh.inUse
            && t.sh.failed == s.sh.failed + 1 && [s.sh.errCh[0]] + t.sh.errCh == s.sh.errCh
            && t.sh.main == if t.sh.failed == s.n then AllFailed else Selecting
  {
    hide Inv, SomeIdle, Raced, FanOut;
    IdleUntilFannedOut(s);
    HeadIsDialed(s);
    var t := ErrorRead(s);
    if s.sh.fannedOut {
      AlreadyRaced(s, t);
      AlreadyRaced(s, t.(sh := t.sh.(main := AllFailed)));
    } else {
      FanOutRaces(s, t);
    }
  }

  /** An error read is counted, and ends the race if it is the last there can be; the first of all races every relay. */
  lemma ErrorIsRead(states: seq<State>, actions: seq<Action>, k: nat)
    requires IsRun(states, actions) && k < |actions| && actions[k] == MainError
    ensures var s, t := states[k], states[k + 1];
            && Raced(s, t) && t.cands[0] == s.cands[0] && t.sh.inUse == s.sh.inUse && |s.sh.errCh| > 0
            && t.sh.failed == s.sh.failed + 1 && [s.sh.errCh[0]] + t.sh.errCh == s.sh.errCh
            && t.sh.main == if t.sh.failed == s.n then AllFailed else Selecting
  {
    StepOf(states, actions, k);
    hide IsRun, Inv, Raced, SeeError;
    ErrorReadOf(states[k]);
  }

  /** The session is the claimed winner's, which claimed before any other could. */
  lemma WinnerIsServed(states: seq<State>, actions: seq<Action>, k: nat)
    requires IsRun(states, actions) && k < |actions| && actions[k] == MainWins
    ensures var s, t := states[k], states[k + 1];
            && s.sh.winner.Some? && t.sh.main == InSession(s.sh.winner.value) && t.sh.winner == s.sh.winner
            && t.sh.winCh == [] && s.sh.sessions == 0 && t.sh.sessions == 1 && t.cands == s.cands
            && s.sh.winner.value < |s.cands| && s.cands[s.sh.winner.value].obtained && s.cands[s.sh.winner.value].closes == 0
  {
    var s := states[k];
    StepOf(states, actions, k);
    assert Owned(s.sh, s.sh.winner.value, s.cands[s.sh.winner.value]);
    hide IsRun, AllLocal, Failures, Fanned, Channels, Slots;
  }

  /** A caller that leaves has the reaper wait for every candidate and close what was won after it. */
  lemma LateWinIsReaped(states: seq<State>, actions: seq<Action>, k: nat)
    requires IsRun(states, actions) && k < |actions|
    ensures actions[k] == MainLeaves ==> states[k + 1].sh.main == Left && states[k + 1].sh.reaper == Reaping
    ensures actions[k] == Reap ==>
      && AllReturned(states[k].cands) && states[k + 1].sh.reaper == Reaped && states[k + 1].sh.winCh == []
      && forall i :: 0 <= i < |states[k].cands| ==>
           states[k + 1].cands[i].closes == states[k].cands[i].closes + if i in states[k].sh.winCh then 1 else 0
    ensures actions[k] == SessionEnds ==>
      && states[k].sh.winner.Some? && states[k + 1].sh.main == SessionOver
      && forall i :: 0 <= i < |states[k].cands| ==>
           states[k + 1].cands[i].closes == states[k].cands[i].closes + if Some(i) == states[k].sh.winner then 1 else 0
  {
    StepOf(states, actions, k);
    assert Won(states[k]);
    hide IsRun, Inv, Won;
    if actions[k] == Reap { ReapedIs(states[k]); }
    if actions[k] == SessionEnds { EndedIs(states[k]); }
    hide ReapWinner, EndSession;
  }

  lemma ReapedIs(s: State)
    requires Won(s) && Steps(s, Reap)
    ensures var t := ReapWinner(s);
            && t.sh.reaper == Reaped && t.sh.winCh == [] && |t.cands| == |s.cands|
            && forall i :: 0 <= i < |s.cands| ==> t.cands[i].closes == s.cands[i].closes + if i in s.sh.winCh then 1 else 0
  {
  }

  lemma EndedIs(s: State)
    requires Won(s) && Steps(s, SessionEnds)
    ensures var t := EndSession(s);
            && s.sh.winner.Some? && t.sh.main == SessionOver && |t.cands| == |s.cands|
            && forall i :: 0 <= i < |s.cands| ==>
                 t.cands[i].closes == s.cands[i].closes + if Some(i) == s.sh.winner then 1 else 0
  {
  }

  /** The first relay over TCP has told main of its connect, and main is timing it or is about to, until all are raced. */
  predicate Armed(s: State) {
    && |s.cands| > 0
    && (s.tcp && s.cands[0].phase !in {Idle, Launched, Erring, Finished} ==> s.sh.connected)
    && (s.sh.connected && !s.sh.fannedOut && s.sh.main == Selecting ==> s.sh.connecting > 0 || s.sh.headStart)
  }

  lemma OwnArmed(s: State, i: nat, act: Act)
    requires Armed(s) && Enabled(s, Own(i, act))
    ensures Armed(Apply(s, i, act))
  {
    var t := Apply(s, i, act);
    assert t.sh.main == s.sh.main && t.sh.fannedOut == s.sh.fannedOut && t.sh.headStart == s.sh.headStart;
    if i != 0 { assert t.cands[0] == s.cands[0]; }
  }

  lemma FanOutArmed(s: State)
    requires |s.cands| > 0
    ensures FanOut(s).sh.fannedOut && FanOut(s).sh.connected == s.sh.connected && FanOut(s).sh.main == s.sh.main
    ensures |FanOut(s).cands| > 0 && FanOut(s).cands[0] == s.cands[0] && FanOut(s).tcp == s.tcp
  {
  }

  lemma HeadStartArmed(s: State)
    requires Armed(s) && Steps(s, MainHeadStart)
    ensures Armed(EndHeadStart(s))
  {
    hide FanOut;
    var t := s.(sh := s.sh.(headStart := false));
    var u := if s.sh.headRelease then Apply(t, 0, GiveSlot) else t;
    assert |u.cands| > 0 && u.cands[0].phase == s.cands[0].phase && u.sh.connected == s.sh.connected && u.tcp == s.tcp;
    FanOutArmed(u);
  }

  lemma ErrorArmed(s: State)
    requires Armed(s) && Steps(s, MainError)
    ensures Armed(SeeError(s))
  {
    hide FanOut;
    FanOutArmed(ErrorRead(s));
  }

  lemma CloseArmed(s: State, i: nat, sh: Shared)
    requires Armed(s) && Closable(s, i) && sh.main != Selecting && sh.connected == s.sh.connected
    ensures Armed(Apply(s, i, CloseRelay).(sh := sh))
  {
  }

  /** What main's own variables do: they arm the head start, or end the select. */
  lemma SelectArmed(s: State, a: Action)
    requires Armed(s) && Steps(s, a) && a in {MainWins, MainConnecting, MainAllocating, MainLeaves, Cancel, OthersTake, OthersGive}
    ensures Armed(Next(s, a))
  {
    hide Apply, FanOut, EndHeadStart, SeeError, ReapWinner, EndSession;
  }

  lemma IdleReap(s: State)
    requires Armed(s)
    ensures Armed(s.(sh := s.sh.(reaper := Reaped)))
  {
  }

  lemma ArmedStep(s: State, a: Action)
    requires Armed(s) && Steps(s, a) && (s.sh.reaper != NoReaper ==> s.sh.main == Left)
    ensures Armed(Next(s, a))
  {
    hide Armed, Apply, EndHeadStart, SeeError;
    match a
    case Own(i, act) => OwnArmed(s, i, act);
    case MainHeadStart => HeadStartArmed(s);
    case MainError => ErrorArmed(s);
    case Reap =>
      if |s.sh.winCh| > 0 {
        CloseArmed(s, s.sh.winCh[0], s.sh.(winCh := s.sh.winCh[1..], reaper := Reaped));
      } else {
        IdleReap(s);
      }
    case SessionEnds => CloseArmed(s, s.sh.main.index, s.sh.(main := SessionOver));
    case _ => SelectArmed(s, a);
  }

  lemma {:induction false} RunArmed(states: seq<State>, actions: seq<Action>, k: nat)
    requires IsRun(states, actions) && k < |states|
    ensures Armed(states[k])
  {
    if k > 0 {
      RunArmed(states, actions, k - 1);
      StepOf(states, actions, k - 1);
      assert Won(states[k - 1]);
      hide *;
      ArmedStep(states[k - 1], actions[k - 1]);
    }
  }

  /**
    A silent first relay is always raced: over TCP, from the moment it dials and
    as long as it has neither answered nor failed, while some relay is undialed
    main may read its connect, which starts the head start, or end the head
    start, which races every relay.
   */
  lemma SilentHeadIsRaced(states: seq<State>, actions: seq<Action>, k: nat)
    requires IsRun(states, actions) && k < |states| && states[k].tcp && states[k].sh.main == Selecting
    requires SomeIdle(states[k]) && states[k].cands[0].phase !in {Launched, Erring, Finished}
    ensures Enabled(states[k], MainConnecting) || Enabled(states[k], MainHeadStart)
    ensures Enabled(states[k], MainConnecting) ==> SeeConnecting(states[k]).sh.headStart
    ensures Enabled(states[k], MainAllocating) ==>
      SeeAllocating(states[k]).sh.headStart && SeeAllocating(states[k]).sh.headRelease
  {
    RunArmed(states, actions, k);
    RunInv(states, actions, k);
    IdleUntilFannedOut(states[k]);
    hide IsRun, AllLocal, AllOwned, Won, Failures, Fanned, Slots, SomeIdle;
  }

  /** Over TCP the slot timer runs from the Allocate's request to its answer. */
  predicate Timed(s: State) {
    forall i :: 0 <= i < |s.cands| && s.cands[i].phase in {Waiting, Aborting} ==> s.cands[i].timer == s.tcp
  }

  lemma TimedStep(s: State, a: Action)
    requires Timed(s) && Steps(s, a)
    ensures Timed(Next(s, a)) && Next(s, a).tcp == s.tcp
  {
    match a
    case Own(i, act) => TimedApply(s, i, act);
    case MainHeadStart => if s.sh.headRelease { TimedApply(s.(sh := s.sh.(headStart := false)), 0, GiveSlot); }
    case Reap => if |s.sh.winCh| > 0 { TimedApply(s, s.sh.winCh[0], CloseRelay); }
    case SessionEnds => TimedApply(s, s.sh.main.index, CloseRelay);
    case _ =>
    hide Apply;
  }

  lemma TimedApply(s: State, i: nat, act: Act)
    requires Timed(s) && i < |s.cands| && Can(s.cands[i], act) && (act.StartAllocate? ==> act.tcp == s.tcp)
    ensures Timed(Apply(s, i, act)) && Apply(s, i, act).tcp == s.tcp
  {
    var c, d := s.cands[i], Move(s.cands[i], act);
    assert d.phase in {Waiting, Aborting} ==> d.timer == s.tcp;
    hide Move, Can, Share;
  }

  lemma {:induction false} RunTimed(states: seq<State>, actions: seq<Action>, k: nat)
    requires IsRun(states, actions) && k < |states|
    ensures Timed(states[k])
  {
    if k > 0 {
      RunTimed(states, actions, k - 1);
      StepOf(states, actions, k - 1);
      hide *;
      TimedStep(states[k - 1], actions[k - 1]);
    }
  }

  /** A silent relay holds no Allocate slot for good: over TCP its slot may be given back while it is waited for, and only there. */
  lemma SlotIsLentOut(states: seq<State>, actions: seq<Action>, k: nat, i: nat)
    requires IsRun(states, actions) && k < |states| && i < |states[k].cands|
    requires states[k].cands[i].phase in {Waiting, Aborting}
    ensures Enabled(states[k], Own(i, GiveSlot)) <==> states[k].tcp
    ensures states[k].tcp && !states[k].cands[i].given ==>
      Apply(states[k], i, GiveSlot).sh.inUse == states[k].sh.inUse - 1
  {
    RunTimed(states, actions, k);
    RunInv(states, actions, k);
    assert Local(states[k].cands[i]);
    hide IsRun, Inv;
  }
}
