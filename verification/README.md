# A verified model of how the tunnel chooses its relays

The program keeps a WireGuard tunnel on many parallel streams, each through one
of a few TURN relays. Which relay a stream uses, and when it is taken off one,
is decided by small process-wide state machines in `pkg/proxy`. Each keeps its
state incrementally (a ring, a matrix, maps under a lock, lock-free clocks); this
project says what that state means and proves that every operation keeps it so,
over whole runs.

| module | models |
|---|---|
| `LossLedger`, `LossView`, `RelayLoss` | the downlink loss book: which relay each missing WireGuard counter is charged to |
| `Silence`, `SilentJudge` | the judge of silence under load: its n by n matrix, its idle rule, the reporter's clock |
| `RelayRace` | the race of one attempt's relays: who owns each allocation and Allocate slot in every interleaving |
| `AllocationLedger`, `AllocationBook` | the allocation book: live allocations, ghosts under numbered marks, what a credential holds |
| `RelayOrder`, `RelayMove` | the order an attempt dials in, and where sessions moved off a rested relay go |
| `DarkPath`, `DarkScout` | the dark path, and how its workers take turns to dial it |
| `Streams`, `Dispatch` | a stream's two queues, the dispatcher's three passes, the reader that serves the queues |
| `HeardClock` | the two lock-free clocks, loads and compare-and-swaps as steps of their own |
| `RelayRest` | the rest ladder and its marks across a restart |
| `Keepalive` | one stream's keepalive loop on the shared grid |
| `DnsParser`, `Ico` | two wire formats: the DNS answer parser, the icon file's writer and reader |
| `Wrappers`, `Sets` | an Option type and two facts about finite sets |

Where the code updates an object in place there is a class with its fields,
whose methods are tied to a function on values; the theorems are about runs of
that function. A mutex-guarded function is one atomic step. Times are integers.

Three things the proofs turned up, the first against the code's own remark:

- A jump past the loss book's window settles nothing, but it leaves the open gap
  and the relay before it in place, so counters can be charged to a relay across
  it (`pkg/proxy/relay_loss.go:179-181` says nothing is counted across it):
  for some packets after the jump if and only if fewer than 8 counters were
  missing since the last delivery before it. Losses from before the jump itself
  are charged that way if and only if one or more were. `LossView.JumpCarriesTheGap`
  is both, `LossView.JumpChargesAcross` a run.
- `moveHead` knows a relay as full by the credential's quota, the attempt that
  follows only by its ghosts, so the picked head is not always the one dialed
  first (`RelayMove.HeadNeedNotLead`): it is if and only if no relay full by the
  quota alone stands in a better tier of the attempt, and, with all of them
  crowded, it loses as the one in front does (`RelayMove.HeadLeadsWhen`).
- The DNS parser does not read the count of questions. Of a message of one A
  record it finds the address if and only if there is one question
  (`DnsParser.ReadsIfOneQuestion`). Every query the program sends has one.

What the model takes for granted, and says in its `requires`: a session's packet
count does not shrink and a session that ended is never ready again
(`Silence.Sound`); the judge's turns come at increasing times; a relay's name is
not empty and holds no arrow (`RelayRest.Named`); the addresses of one race are
distinct, so that only its first candidate has the head start.

## Model

| member | source | states |
|---|---|---|
| LossLedger.ChargingRule | pkg/proxy/relay_loss.go:218-245 | a relay's rx counts exactly its deliveries, and its lost exactly the missing counters of runs shorter than 8 with a delivery through it on both sides |
| LossLedger.UnplacedRule | pkg/proxy/relay_loss.go:234-245 | unplaced counts exactly the closed missing counters charged to nobody |
| LossLedger.Conservation | pkg/proxy/relay_loss.go:218-245 | every finalised counter is a delivery, a charged loss, an unplaced loss or part of the open gap, and only one of them |
| LossView.WindowAlwaysBounded | pkg/proxy/relay_loss.go:142-201 | after every packet or flush of every run the window is at most 1024 counters and holds only its own |
| LossView.SettledPerPacket | pkg/proxy/relay_loss.go:152-201 | one packet settles at most 3072 counters of its own window besides what a keypair change owes, and never rewrites one settled before |
| LossView.OrderDoesNotMatter | pkg/proxy/relay_loss.go:142-262 | any two in-window arrival orders of the same packets settle the same counters the same way, and the counts are the declarative ones |
| LossView.SettledByTable | pkg/proxy/relay_loss.go:182-200 | after a flush the settled counters are the ones of the set of arrivals |
| LossView.SettledOnlyGrows | pkg/proxy/relay_loss.go:152-201 | across keypairs, jumps and windows a finalised counter is never taken back or counted again |
| LossView.StragglersChangeNothing | pkg/proxy/relay_loss.go:155-166 | over any run of the current keypair the packets still coming of the one just left change nothing, whatever their counters |
| LossView.NewKeypairOpens | pkg/proxy/relay_loss.go:155-174 | a packet of any third index opens a keypair if and only if its counter is below 256, and then settles every counter of the old one |
| LossView.JumpCarriesTheGap | pkg/proxy/relay_loss.go:178-185 | a jump settles nothing; packets can follow it that charge a run across it if and only if a delivery less than 8 missing counters before it was settled last, and that charge losses from before it if and only if such a gap was open |
| LossView.AcrossIsFromTheTail | pkg/proxy/relay_loss.go:236-241 | whatever is charged across the end of what is settled begins at the last delivery settled, less than 8 counters before that end |
| LossView.JumpChargesAcross | pkg/proxy/relay_loss.go:178-185 | a run in which that happens |
| RelayLoss.LossBook.PlaceGapLocked | pkg/proxy/relay_loss.go:234-245 | the gap goes where the ledger's rule puts it |
| RelayLoss.LossBook.FinalizeLocked | pkg/proxy/relay_loss.go:218-232 | the loop over ring slots settles exactly the counters below its bound, in 64-bit arithmetic that never wraps |
| RelayLoss.LossBook.RelayIndexLocked | pkg/proxy/relay_loss.go:203-216 | a relay's 16-bit index names it, and naming one changes no count |
| RelayLoss.LossBook.Observe | pkg/proxy/relay_loss.go:142-201 | a packet changes the book as the transition on unbounded counters does, or not at all, the ring keeps one counter a slot, and the time of the last booked packet is kept |
| RelayLoss.LossBook.Take | pkg/proxy/relay_loss.go:247-262 | what is taken and what was taken before add up to the ledger; the window starts again |
| RelayLoss.TakesAddUp | pkg/proxy/relay_loss.go:247-262 | all rx, lost and unplaced ever returned, plus the open gap, are the counters settled, each once |
| RelayLoss.LossBook.Reset | pkg/proxy/relay_loss.go:122-137 | the book is a new one's |
| RelayLoss.OwnSlot | pkg/proxy/relay_loss.go:186-194 | two counters of one window never share a slot |
| RelayLoss.RingBooks | pkg/proxy/relay_loss.go:186-194 | booking a counter in its slot keeps every other counter of the window in its own |
| RelayLoss.SamplesOf | pkg/proxy/relay_loss.go:254-261 | exactly the relays with a count, each once, with their counts |
| Silence.VerdictIsJustified | pkg/proxy/silent_under_load.go:318-364 | over the history every verdict has two witnesses or more, each with 24 packets since the judged stream's last one and one heard within 2 s, a silence of 4 to 35 s and no freeze inside |
| Silence.VerdictIsGiven | pkg/proxy/silent_under_load.go:318-364 | and conversely: a turn convicts exactly the streams the history condemns, silent since the turn their silence began with two such siblings, unmarked, 4 to 35 s, no freeze inside |
| Silence.ConvictingIsAwake | pkg/proxy/silent_under_load.go:372-397 | a turn that convicts leaves the judge awake, so an idle turn convicted nobody: the prior take is never newer than the row |
| Silence.StillStaysIdle | pkg/proxy/silent_under_load.go:372-397 | a turn that sees nothing new leaves an idle judge idle, whatever it takes anew |
| Silence.RestsInTheEnd | pkg/proxy/silent_under_load.go:372-397 | after two spans of 35 s with nothing heard and no stream come ready the judge is idle |
| Silence.IdleLasts | pkg/proxy/silent_under_load.go:286-397 | however many such turns are taken, freezes or not, the judge stays idle and none convicts |
| Silence.RowsStay | pkg/proxy/silent_under_load.go:318-335 | and, with no freeze, the rows stay as they are |
| Silence.SleepingLosesNothing | pkg/proxy/silent_under_load.go:419-447 | with no freeze in between the turns slept through convict nobody, and the waking turn convicts, reports and keeps the same whether the judge slept or ticked |
| Silence.SleepingThroughAFreeze | pkg/proxy/silent_under_load.go:286-335 | with a freeze in between the waking turn reports the same returns and convicts nobody; a judge that ticked would convict only by packets heard in the waking turn itself |
| Silence.EachVerdictReturnsOnce | pkg/proxy/silent_under_load.go:324-335 | a session is reported heard again at most as often as it was found silent |
| Silence.ReturnIsReported | pkg/proxy/silent_under_load.go:324-330 | a stream is reported back exactly if in the same session it has heard a packet since the one it was marked for |
| Silence.EachVerdictReturns | pkg/proxy/silent_under_load.go:324-335 | over any history there are as many returns as verdicts, but for a silence that goes on or that its session ended in |
| Silence.StreamActivity.NoteRx | pkg/proxy/keepalive_policy.go:216-252 | a packet heard lifts a verdict at once, whatever the judge does |
| SilentJudge.GapsAreTakenOnce | pkg/proxy/silent_under_load.go:175-207 | over any run of the reporter and the judge each gap is taken for a freeze at most once |
| SilentJudge.NoGapIsMissed | pkg/proxy/silent_under_load.go:175-207 | an idle judge's turn has taken the gap before the reporter's latest late turn since its own last, or the gap that goes on |
| SilentJudge.TurnIsABeat | pkg/proxy/silent_under_load.go:191-207 | a judge's turn takes a gap exactly when it finds a freeze while idle, and keeps its beginning |
| SilentJudge.SilentUnderLoadJudge.TakeTurn | pkg/proxy/silent_under_load.go:286-364 | one turn over the matrix changes it, convicts and reports as the rules say, knows a freeze by its tick or by the clock, and keeps of its run and the reporter's what GapsAreTakenOnce is about |
| SilentJudge.SilentUnderLoadJudge.QuietTurn | pkg/proxy/silent_under_load.go:372-397 | base and prior are taken as the rules say, and idle is exactly that no stream has a witness's worth since prior |
| SilentJudge.SilentUnderLoadJudge.CountWitnesses | pkg/proxy/silent_under_load.go:343-358 | the loop counts exactly the siblings that vouch |
| SilentJudge.TurnAndMark | pkg/proxy/silent_under_load.go:286-364 | a whole turn: every verdict is marked on its session with the packet it was given for, every other session keeps its mark |
| RelayRace.Step | pkg/proxy/stream_run_with_creds.go:202-358 | every enabled step keeps the ownership invariant |
| RelayRace.RaceIsSafe | pkg/proxy/stream_run_with_creds.go:202-358 | in every interleaving at most one session starts, each allocation obtained is open in one place or closed once, and no slot is given back that was not taken |
| RelayRace.NothingLeaks | pkg/proxy/stream_run_with_creds.go:1086-1095 | once all is over every allocation is closed exactly once and every slot is back |
| RelayRace.MainNeverWaitsForNothing | pkg/proxy/stream_run_with_creds.go:287-358 | the main loop never waits with no candidate running and nothing pending |
| RelayRace.CandidatesNeverBlock | pkg/proxy/stream_run_with_creds.go:690-744 | no candidate is ever stuck but on the network or for a free slot |
| RelayRace.MoveKeepsInside | pkg/proxy/stream_run_with_creds.go:816-844 | a candidate's own step moves a relay or closes it, and never does both or neither |
| RelayRace.MoveHolds | pkg/proxy/stream_run_with_creds.go:690-744 | the slot is given back once, whoever gives it first |
| RelayRace.HeadStartEnds | pkg/proxy/stream_run_with_creds.go:315-329 | the end of the head start leaves no relay undialed; the first one's slot, if its request went out, is given, once |
| RelayRace.SilentHeadIsRaced | pkg/proxy/stream_run_with_creds.go:294-329 | a first relay that dials over TCP and stays silent is always raced: its head start runs, or main is about to start it, until every relay is dialed |
| RelayRace.SlotIsLentOut | pkg/proxy/stream_run_with_creds.go:698-744 | while an Allocate is waited for its slot may be given back early exactly over TCP |
| RelayRace.ErrorIsRead | pkg/proxy/stream_run_with_creds.go:330-349 | every error is counted, the first leaves no relay undialed, the last ends the race |
| RelayRace.WinnerIsServed | pkg/proxy/stream_run_with_creds.go:305-306 | the one session is the claimed winner's, on an allocation obtained and still open |
| RelayRace.LateWinIsReaped | pkg/proxy/stream_run_with_creds.go:350-357 | what is won after the caller has left is closed once every candidate has returned |
| AllocationLedger.BookHolds | pkg/proxy/orphaned_allocations.go:141-250 | in every reachable book live counts the tracked allocations, orphans the distinct ghosts under the mark in force; numbers are not reused and no mark ends earlier |
| AllocationLedger.CountedOnce | pkg/proxy/orphaned_allocations.go:211-250 | a ghost reported again is not counted twice, and its mark ends ten minutes after that report, if that is later |
| AllocationLedger.MarkEndsAfterLastReport | pkg/proxy/orphaned_allocations.go:234-250 | over any run a mark ends ten minutes after the latest report under it |
| AllocationLedger.ReportedIsHeld | pkg/proxy/orphaned_allocations.go:211-250 | an allocation reported is a ghost at every time less than ten minutes later, through whatever happens before then |
| AllocationLedger.HeldIsTheUnion | pkg/proxy/relay_move.go:182-200 | live plus ghosts less those that are both is the size of their union |
| AllocationLedger.TrackHeld | pkg/proxy/orphaned_allocations.go:141-150 | a new allocation adds itself to what is held and nothing else |
| AllocationLedger.ReleaseHeld | pkg/proxy/orphaned_allocations.go:168-203 | a release gives a seat back exactly if it went out and the allocation was no ghost |
| AllocationLedger.OutOfReachHeld | pkg/proxy/orphaned_allocations.go:263-273 | a report adds its own allocation to what is held and nothing else |
| AllocationLedger.NetworkLostHeld | pkg/proxy/orphaned_allocations.go:319-346 | the loss of the network changes nothing of what the relays hold |
| AllocationLedger.SweepAllStep | pkg/proxy/orphaned_allocations.go:359-381 | a sweep drops the marks past their end and nothing else |
| AllocationBook.Book.TrackAllocation | pkg/proxy/orphaned_allocations.go:141-150 | a new allocation is live and tracked once |
| AllocationBook.Book.Close | pkg/proxy/orphaned_allocations.go:168-203 | the first close releases the allocation, a later one changes nothing |
| AllocationBook.Book.OrphanLocked | pkg/proxy/orphaned_allocations.go:234-250 | more ghosts under the mark in force, or a new mark under a new number; says which |
| AllocationBook.Book.CountGhostLocked | pkg/proxy/orphaned_allocations.go:211-230 | the allocation is counted under the mark in force, once |
| AllocationBook.Book.OrphanLiveAllocations | pkg/proxy/orphaned_allocations.go:319-346 | the grouping and counting loops put every live allocation under its key's mark, in whatever order the map gives the keys |
| AllocationBook.Book.CrowdedRelays | pkg/proxy/orphaned_allocations.go:359-381 | exactly the relays where five distinct allocations or more are ghosts now |
| AllocationBook.Book.CredsHeldOn | pkg/proxy/relay_move.go:182-200 | for each relay the number of allocations held there, live or ghost, each once |
| RelayOrder.CanonIgnoresOrder | pkg/proxy/worker_creds.go:90-96 | a relay has the same place in every group, whatever order or how often a link names them |
| RelayOrder.AssignedHolds | pkg/proxy/worker_creds.go:90-124 | an attempt dials every usable relay once, clean before losing before crowded; with none usable every relay of its link once |
| RelayOrder.OutageHolds | pkg/proxy/turn_server_demotion.go:105-144 | with none usable a relay that carried and failed nothing since comes before any other, the crowded of those behind the rest, and a demoted one last |
| RelayOrder.TiersAreTurned | pkg/proxy/worker_creds.go:106-123 | the m-th dialed of a tier of n is its (id + m) mod n-th in canonical order |
| RelayOrder.HeadsAreSpread | pkg/proxy/worker_creds.go:106-123 | as many streams in a row as there are clean relays each dial another one first |
| RelayOrder.TiersInWords | pkg/proxy/worker_creds.go:106-123 | no losing relay is dialed before a clean one, no crowded one before any other |
| RelayOrder.OutageIsTurned | pkg/proxy/turn_server_demotion.go:105-144 | in an outage the proven are spread by the stream's number over the ranked order, and the rest keeps its rank |
| RelayOrder.OutageInWords | pkg/proxy/turn_server_demotion.go:105-144 | nobody is dialed before a proven relay but those, nobody behind a demoted one but those |
| RelayOrder.HeadFirst | pkg/proxy/relay_move.go:255-267 | the slice is shifted in place exactly when the head may lead |
| RelayOrder.LedKeeps | pkg/proxy/relay_move.go:252-267 | the rotation loses and doubles nobody, keeps the tiers in order and everyone else's order |
| RelayOrder.LeadsWhen | pkg/proxy/relay_move.go:252-267 | a usable relay put at the head leads if and only if none is of a better tier and, with all crowded, it loses as the first does |
| RelayMove.HeadIsBest | pkg/proxy/relay_move.go:208-250 | there is a pick whenever there is a usable relay; none is in a better tier or less loaded, so a full relay is picked only if all are full |
| RelayMove.TiesGoRound | pkg/proxy/relay_move.go:240-249 | of streams that ask for the same, two take the same relay only if their numbers agree round the ties |
| RelayMove.TurnIsBalanced | pkg/proxy/relay_move.go:226-250 | at the end of a turn no picked relay is more than one session above any of the tier it was last picked from |
| RelayMove.QuotaKept | pkg/proxy/relay_move.go:212-223 | held and picked pass ten in a turn only by a pick that found every relay full |
| RelayMove.TurnIsCharged | pkg/proxy/relay_move.go:246-249 | a relay's load grows by exactly the picks of it |
| RelayMove.PicksAreCounted | pkg/proxy/relay_move.go:246-249 | and a credential's picks on a relay are counted, each once |
| RelayMove.RelayLoad.MoveHead | pkg/proxy/relay_move.go:208-250 | the loops over tiers, loads and ties pick the best relay, ties by the stream's id in canonical order |
| RelayMove.MoveHeadOn | pkg/proxy/relay_move.go:208-250 | the same on the allocation book: full means five ghosts, or ten held by the book's own count with this turn's picks |
| RelayMove.HeadLeadsWhen | pkg/proxy/worker_creds.go:166-177 | the picked head is dialed first if and only if no relay the session may go to is of a better tier to the attempt; any that is, is full by the quota alone |
| RelayMove.HeadNeedNotLead | pkg/proxy/worker_creds.go:166-177 | a pick that is not dialed first |
| RelayMove.RecycleRelaySessions | pkg/proxy/relay_rest.go:270-340 | exactly the sessions with another usable relay move, each to a head, every pick charged before the next, all weighing the window's losses and the book as the first found it |
| RelayMove.TurnKeepsQuota | pkg/proxy/relay_move.go:212-249 | what a credential holds on a relay and the number of times a turn sends it there come to more than ten only by a session that found every relay it may go to full |
| RelayMove.RestJudgedRelays | pkg/proxy/relay_rest.go:196-224 | every judged relay rests before any session moves; exactly the sessions of the rested relays that have another move, each to a usable relay, full on the book only if all it may go to are, losing only if none is clean, and no more loaded than another of its tier |
| RelayMove.NewlyRestedAre | pkg/proxy/relay_rest.go:206-215 | exactly the relays judged that do not rest already are rested, each once |
| RelayMove.TurnMoversAre | pkg/proxy/relay_rest.go:311-321 | exactly the sessions on a rested relay move whose link has another usable relay |
| RelayMove.LossyRelays | pkg/proxy/relay_move.go:86-112 | exactly the relays losing against the best weighed in the window |
| RelayMove.BestIsNotLossy | pkg/proxy/relay_move.go:86-112 | the best is never lossy, and a relay worse than a lossy one is |
| DarkPath.ScoutDialsAlone | pkg/proxy/dark_scout.go:240-298 | from a yes by the turn to its verdict, a light, a reset or the worker's leaving, nobody else is given a turn, told to dial or released |
| DarkPath.YesByTheTurn | pkg/proxy/dark_scout.go:261-275 | the turn is the scout's own exactly if it held it live; past its lease it has lost it |
| DarkPath.LineIsFair | pkg/proxy/dark_scout.go:213-258 | the line holds nobody twice, and a worker in it moves up a place with every turn given |
| DarkPath.LineIs | pkg/proxy/dark_scout.go:213-259 | who waits stands at the back, who stops waiting or leaves is out, and a turn is given to the head |
| DarkPath.TurnsAreSpaced | pkg/proxy/dark_scout.go:146-154 | between resets a turn is taken 6 s after the start and 0.5 s after the end of every attempt reported, or later |
| DarkScout.VerdictIsOfTheTurn | pkg/proxy/dark_scout.go:277-298 | a verdict has a say exactly while its turn is the one dialing, and then it is of this path; else it changes nothing |
| DarkScout.TurnEndsBy | pkg/proxy/path_revival.go:291-326 | a dialing turn ends by its verdict, its worker's leaving, a light or a reset only; until then no other scout is told to dial and no worker is let out of its park, at the park's limit either, but by a proof whose light came before the turn dialed |
| DarkScout.DarkIsFoundBy | pkg/proxy/dark_scout.go:120-144 | the path is found dark only by an attempt of this path, with no sleep inside and no relay heard since its mark |
| DarkScout.DarkExactly | pkg/proxy/dark_scout.go:120-165 | and conversely: after an event the path is dark exactly if it was and nothing was heard, lit or reset, or an attempt of this path has just heard no relay |
| DarkScout.FinderParks | pkg/proxy/dark_scout.go:327-348 | a worker that looks for the dark parks exactly if the path is dark then |
| DarkScout.ResetOutdates | pkg/proxy/dark_scout.go:205-210 | what was begun before a reset is of an older path ever after |
| DarkScout.ParkedGoOn | pkg/proxy/path_revival.go:291-326 | with no scout dialing, within 20 s the head of the line is given its turn if the dark holds, and any worker parked is released if not |
| DarkScout.TurnIsGoodForItsLease | pkg/proxy/dark_scout.go:245-275 | a worker given a turn and back within 20 s is told to dial, unless a light, a reset or its leaving came before |
| DarkScout.LapsedScout | pkg/proxy/dark_scout.go:261-275 | a scout back past its lease goes on by itself only if the path is not dark and no turn is live, and else parks |
| DarkScout.DarkPaths.TakeDarkScout | pkg/proxy/dark_scout.go:245-259 | a turn is given to the head of the line when it is due and no turn is live |
| DarkScout.DarkPaths.DarkScoutDials | pkg/proxy/dark_scout.go:265-275 | told to dial by the turn, or when no dark holds and no turn is live |
| DarkScout.DarkPaths.DarkScoutDone | pkg/proxy/dark_scout.go:284-298 | the turn ends, its verdict recorded and the next put off |
| DarkScout.DarkPaths.Note | pkg/proxy/dark_scout.go:120-144 | an attempt of an older path finds nothing |
| DarkScout.DarkPaths.DarkReleases | pkg/proxy/dark_scout.go:186-191 | the parked may go when no dark holds and no turn is live |
| DarkScout.DarkPaths.DarkScouted | pkg/proxy/dark_scout.go:300-307 | yes exactly with another worker's turn live |
| DarkScout.DarkPaths.LeaveTheDark | pkg/proxy/dark_scout.go:232-240 | out of the line and out of the turn |
| Dispatch.Dispatcher.DispatchPacket | pkg/proxy/init_groups.go:379-436 | the packet goes into the best open queue and no other; a drop with a ready stream means every ready stream's ordinary queue is full; the two counters move exactly in their cases |
| Dispatch.BestIsOne | pkg/proxy/init_groups.go:379-436 | there is one best place: by pass, priority before ordinary, nearest in rotation |
| Dispatch.FoundIsBest | pkg/proxy/init_groups.go:402-434 | the first place a pass finds, those before it having failed, is the best of all |
| Dispatch.NothingOpen | pkg/proxy/init_groups.go:403-435 | with the passes that may run all failed, no place is open at all |
| Dispatch.OutboundReader.ReadNext | pkg/proxy/stream_queue.go:87-115 | what a read takes, with what is queued while it waits |
| Dispatch.BurstIsBounded | pkg/proxy/stream_queue.go:79-100 | of nine reads begun with data waiting one takes data |
| Dispatch.PriorityFirst | pkg/proxy/stream_queue.go:87-115 | a read takes the oldest small packet queued, but when the last eight taken were small and data waits; then it takes the oldest of that |
| Dispatch.EachQueueInOrder | pkg/proxy/stream_queue.go:87-115 | each queue is served in its own order, nothing lost, nothing twice |
| Streams.Stream.EnqueuePriority | pkg/proxy/stream_queue.go:24-34 | the packet changes hands only if it is taken |
| Streams.Stream.DrainOutbound | pkg/proxy/stream_queue.go:59-77 | both queues emptied and every packet of them counted |
| HeardClock.QuietClocksAreExact | pkg/proxy/relay_silence.go:80-105 | however the calls interleave, at quiescence the clock is the greatest time reported and the gap's end the greatest that ended a gap |
| HeardClock.StoredTimesGrow | pkg/proxy/relay_silence.go:80-105 | the stored times only grow, so no gap is measured from a time set back |
| HeardClock.FailedSwapIsProgress | pkg/proxy/relay_silence.go:83-105 | a compare-and-swap fails only to another call's progress |
| RelayRest.RestartsAreInvisible | pkg/proxy/relay_rest_store.go:98-119 | restarts of the process and proxy starts within it, between any operations, change no answer and no rest length |
| RelayRest.ReadBackAlike | pkg/proxy/relay_rest_store.go:178-231 | a file written earlier reads back as marks nothing later can tell apart |
| RelayRest.ReadRestIsBounded | pkg/proxy/relay_rest_store.go:178-209 | with any file and any clock a rest read back has at most its own length left, and one that came back stays back |
| RelayRest.RestsClimbTheLadder | pkg/proxy/relay_rest.go:131-147 | every rest is the rung of the relapses in a row |
| RelayRest.RunAnsweredByVerdicts | pkg/proxy/relay_rest.go:92-147 | over any run, restarts and all, a relay rests from a verdict for exactly its rest, and a verdict's rest is told by the times of the verdicts alone |
| RelayRest.ReturnIsForGood | pkg/proxy/relay_rest_store.go:178-209 | a relay found back from its rest is read back as such by any clock |
| RelayRest.RungsAre | pkg/proxy/relay_rest.go:54-57 | the rungs are 30 minutes, one, two and four hours |
| RelayRest.CutsApart | pkg/proxy/relay_rest_store.go:211-217 | a mark's key comes apart into its relay and server |
| RelayRest.RelayRests.RelayResting | pkg/proxy/relay_rest.go:92-114 | the answer, the return noted once and saved, the mark dropped past its window |
| RelayRest.RelayRests.NoteRelayRestingFor | pkg/proxy/relay_rest.go:131-147 | the rest doubled within two hours of a return, saved; nothing for a judge whose proxy ended |
| RelayRest.RelayRests.Encode | pkg/proxy/relay_rest_store.go:211-231 | one entry for each mark whose window has not passed |
| RelayRest.RelayRests.DecodeFile | pkg/proxy/relay_rest_store.go:178-209 | the marks of the entries that make sense, cut for a clock moved back |
| RelayRest.RelayRests.Load | pkg/proxy/relay_rest_store.go:98-113 | what the process knows wins over the file |
| Keepalive.NextGridIsFirst | pkg/proxy/keepalive_policy.go:313-319 | the next grid point is the first after now, and points are 25 s apart |
| Keepalive.PhasesAreApart | pkg/proxy/keepalive_policy.go:156-167 | the streams of a pool have phases of their own in the window, in order |
| Keepalive.DeadlineIsLeast | pkg/proxy/keepalive_policy.go:333-353 | the wait ends by the earliest of the grid, the retry, the repeat and the dead-stream check |
| Keepalive.GridPointIsServed | pkg/proxy/turn-client.go:330-445 | a grid point inside a wait is served by a keepalive if and only if no wake, freeze, end or dead verdict took the turn |
| Keepalive.RepeatedOnce | pkg/proxy/turn-client.go:415-450 | a keepalive is repeated at most once, and only if nothing was heard since it went out |
| Keepalive.RepeatIsDue | pkg/proxy/turn-client.go:415-450 | and no sooner than 3 s after it |
| Keepalive.SentArmsRepeat | pkg/proxy/turn-client.go:415-451 | and it comes: the wait after a send, if nothing else ends it, ends 3 s later or more with the repeat, or with none exactly if something was heard |
| Keepalive.SendIsFollowedUp | pkg/proxy/turn-client.go:441-451 | no wait after a send is due later than 3 s from it, none after a failed one later than 5 s |
| Keepalive.FailedIsRetried | pkg/proxy/turn-client.go:425-447 | a send that failed is tried again by the next wait that runs its time, 5 s later or at the grid point |
| Keepalive.KeepaliveLoop.TakeTurn | pkg/proxy/turn-client.go:326-450 | one turn of the loop over its timers |
| Keepalive.OneSendABucket | pkg/proxy/keepalive_policy.go:128-143 | no two WireGuard keepalives of the grid go out in one bucket |
| Keepalive.EveryBucketIsServed | pkg/proxy/keepalive_policy.go:128-143 | and of every bucket the sender was asked in one went out |
| Keepalive.SharedSender.SendOnSharedGrid | pkg/proxy/keepalive_policy.go:128-143 | a send exactly if the last was another bucket's; the sends are those OneSendABucket is about |
| DnsParser.ParseDNSResponse | pkg/proxy/dns.go:685-764 | on every byte string the loops end in bounds, with the result of the parsing function |
| DnsParser.ParsesWhatIsAnswered | pkg/proxy/dns.go:685-764 | of a well-formed response to one plain question exactly the A records' addresses, in order, or none |
| DnsParser.RefusesTheRest | pkg/proxy/dns.go:685-706 | a message that is no response, tells of an error, lists no answer or is too short is refused with just that |
| DnsParser.ReadsIfOneQuestion | pkg/proxy/dns.go:708-717 | of a message of one A record of a host name, with any number of A questions, the parser returns the address if and only if there is one question; else it finds no record |
| Ico.ToIcoResource | assets/ico.go:72-106 | the pixels bottom up and the mask, filled in place, are the bitmap of the frame |
| Ico.MaskTellsTransparent | assets/ico.go:77-92 | a mask bit is set exactly at alpha 0 |
| Ico.EncodeIco | assets/ico.go:19-67 | the frames width-sorted in place, and the file of them in that order |
| Ico.DataTile | assets/ico.go:46-62 | the directory's entries tile the data: no overlap, no hole |
| Ico.FrameFound | assets/ico.go:46-66 | each entry leads to its frame's own data |
| Ico.IcoFrames | cmd/genico/main.go:103-131 | reading the file back gives every frame pixel for pixel, in order |
| Ico.ReadBitmap | cmd/genico/main.go:119-128 | a bitmap read back is the frame |

## Left out

- Sockets, TURN and DTLS exchanges, the credential fetch and the workers' backoff: a dial is a nondeterministic result, and a worker may take any step it has come to.
- Log lines and the flags that only keep one from being printed twice (announced, since), and the loss book's active seconds.
- The releases' settling window and the quota breaker (releasedAt, succeeded): they decide other things than those modelled.
- Real scheduling: that timers fire and channels are served. Safety, exactness and the absence of stuck states are proved instead.
- JSON syntax, PNG compression and the conversion from premultiplied colours: a file is its entries or unreadable, PNG a pair of inverse functions, a frame its straight-alpha pixels.
- The health a relay is judged by elsewhere (demotions, penalties) is a set fixed during one turn, and in an outage the times of its last round trip and its last failed handshake.
- The relay count in a dark-path call is read once; the code may read it twice within one call, and then notes nothing if it moved between.
- The TCP calls and clocks behind the judge's snapshot: a turn reads every stream at once. Its theorems hold of any snapshots whose counts do not shrink, torn ones too.
- The restart of the reporter's clock by another proxy's start, and the wake token of the idle judge's runner.
- The heard clocks set back to zero when the transport changes (resetRelayHeardClocks).
- Silence.SleepingLosesNothing: both judges tell alike whether the waking turn itself came after a freeze; the code's tick finds one after 1.5 s, the reporter's clock after 2 s.
- RelayRest.RelayRests.Encode: the entries come in any order, where the code sorts them by relay and server.
- RelayRest.ReadRestIsBounded: a file larger than 64 KB, which is not read at all, counts as unreadable.
- RelayRest.RestartsAreInvisible: a write to disk belongs to the operation it follows; a crash between the two loses that operation's change.
- RelayMove.LossyRelays: rates are exact, where the code divides in floating point.
- RelayMove.RecycleRelaySessions: the sessions come in stream order and their attempts are recycled elsewhere; a judge whose proxy has ended is not modelled.
- Ico.EncodeIco: which of two frames of one width comes first is not told, as the library's sort is not stable.
- Ico.IcoFrames: a file EncodeIco did not write is not read here, nor one with a frame 256 or more wide and of no height, for which png.Encode writes nothing; the code stops the program at some of those.
- RelayRace.RaceIsSafe: two candidates of one address are not modelled; both would have the head start's hooks if it were the first address.
- DnsParser.ParsesWhatIsAnswered: a question whose own name is compressed is not a plain one; the parser takes it for one byte shorter than it is.
- DnsParser.ReadsIfOneQuestion: with several records a count other than one may still come out right, where what is misread has no address of its own; names with a zero byte in a label and questions of other types or classes are not told of.
- SilentJudge.SilentUnderLoadJudge.TakeTurn: each session and count pair of the code's parallel arrays is one optional entry here, since a count without its session is never read.
- Keepalive.KeepaliveLoop.TakeTurn: the post-wake probe's own pings and verdicts (wake_probe.go) are its outcome only.
- The cache of host names, the queries sent, and DNS over TLS or HTTPS around the parser.
