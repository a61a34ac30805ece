/**
  Where the sessions moved off a rested relay go (pkg/proxy/relay_move.go,
  recycleRelaySessions of relay_rest.go): each to the relay of its best tier
  that has the fewest sessions, earlier picks of the turn included.
 */
module RelayMove {
  import opened Wrappers
  import opened AllocationLedger
  import opened AllocationBook
  import opened RelayOrder
  import opened RelayLoss

  const QUOTA := 2 * STEER_AT

  /** How many sessions a relay has, and how often the turn has sent a credential to it. */
  datatype Load = Load(sessions: map<string, int>, picked: map<Key, int>)

  function At<K>(m: map<K, int>, k: K): int { if k in m then m[k] else 0 }

  /** What one pick weighs: the session's relays and credential, and what is known of the relays then. */
  datatype Move = Move(relays: seq<string>, left: string, id: nat, user: string, usable: set<string>,
                       lossy: set<string>, crowded: set<string>, held: map<string, int>)

  /** The session may go to relay. */
  predicate Open(m: Move, relay: string) { relay in m.relays && relay != m.left && relay in m.usable }

  /** The relay is full for the credential: crowded with its ghosts, or at its quota with this turn's picks. */
  predicate Full(m: Move, load: Load, relay: string) {
    relay in m.crowded || At(m.held, relay) + At(load.picked, Key(m.user, relay)) >= QUOTA
  }

  /** 0 clean, 1 losing, 2 full. */
  function Tier(m: Move, load: Load, relay: string): nat {
    if Full(m, load, relay) then 2 else if relay in m.lossy then 1 else 0
  }

  function InTier(m: Move, load: Load, k: nat): set<string> {
    set r | r in m.relays && Open(m, r) && Tier(m, load, r) == k
  }

  predicate NoBetter(m: Move, load: Load, x: string, r: string) {
    Tier(m, load, r) < Tier(m, load, x)
    || (Tier(m, load, r) == Tier(m, load, x) && At(load.sessions, r) <= At(load.sessions, x))
  }

  /** The relays no other is better than: of the first tier that has any, the least loaded. */
  function Best(m: Move, load: Load): set<string> {
    set r | r in m.relays && Open(m, r) && forall x | x in m.relays :: Open(m, x) ==> NoBetter(m, load, x, r)
  }

  /** moveHead: among the best, in canonical order, the stream's number chooses. */
  function Head(m: Move, load: Load): Option<string> {
    var ties := InOrder(Canon(m.relays), Best(m, load));
    if ties == [] then None else Some(ties[m.id % |ties|])
  }

  function Charge(load: Load, user: string, head: Option<string>): Load {
    match head
    case None => load
    case Some(h) => Load(load.sessions[h := At(load.sessions, h) + 1],
                         load.picked[Key(user, h) := At(load.picked, Key(user, h)) + 1])
  }

  // ---- One pick ----------------------------------------------------------------

  /** Any nonempty candidate set has a best relay. */
  lemma BestExists(m: Move, load: Load, relay: string)
    ensures Open(m, relay) ==> Best(m, load) != {}
  {
    if Open(m, relay) {
      var r := LeastOf(m, load, m.relays, relay);
      assert r in Best(m, load);
    }
  }

  lemma {:induction false} LeastOf(m: Move, load: Load, rs: seq<string>, relay: string) returns (r: string)
    requires Open(m, relay)
    ensures Open(m, r) && NoBetter(m, load, relay, r)
    ensures forall x :: x in rs && Open(m, x) ==> NoBetter(m, load, x, r)
    decreases |rs|
  {
    if rs == [] {
      r := relay;
    } else {
      r := LeastOf(m, load, rs[1..], relay);
      assert forall x :: x in rs ==> x == rs[0] || x in rs[1..];
      if Open(m, rs[0]) && !NoBetter(m, load, rs[0], r) { r := rs[0]; }
    }
  }

  /**
    The pick is one of the session's other usable relays, there is one whenever
    there is such a relay, and none of them is in a better tier or less loaded
    in the same. So a full relay is picked only if every other is full.
   */
  lemma HeadIsBest(m: Move, load: Load)
    ensures Head(m, load).None? <==> forall x :: !Open(m, x)
    ensures Head(m, load).Some? ==>
      var h := Head(m, load).value;
      && Open(m, h)
      && (forall x :: Open(m, x) ==> NoBetter(m, load, x, h))
      && (Full(m, load, h) ==> forall x :: Open(m, x) ==> Full(m, load, x))
  {
    var ties := InOrder(Canon(m.relays), Best(m, load));
    CanonSorts(m.relays);
    InOrderHolds(Canon(m.relays), Best(m, load));
    hide Canon, InOrder, Full;
    if ties == [] {
      assert Best(m, load) == {};
      forall x ensures !Open(m, x) { BestExists(m, load, x); }
    } else {
      var h := ties[m.id % |ties|];
      assert h in ties;
      assert forall x :: Open(m, x) ==> NoBetter(m, load, x, h);
      if Full(m, load, h) {
        forall x | Open(m, x) ensures Full(m, load, x) { assert NoBetter(m, load, x, h); }
      }
    }
  }

  /** Ties go round: two streams that ask for the same take the same relay only if their numbers agree round the ties. */
  lemma TiesGoRound(m: Move, load: Load, id: nat)
    requires Head(m, load).Some?
    ensures var n := |InOrder(Canon(m.relays), Best(m, load))|;
            n > 0 && (Head(m.(id := id), load) == Head(m, load) <==> id % n == m.id % n)
  {
    var other := m.(id := id);
    assert Best(other, load) == Best(m, load) by {
      forall r ensures Open(other, r) == Open(m, r) && Tier(other, load, r) == Tier(m, load, r) {}
    }
    var ties := InOrder(Canon(m.relays), Best(m, load));
    CanonSorts(m.relays);
    InOrderHolds(Canon(m.relays), Best(m, load));
    hide Canon, InOrder, Best;
    forall i, j | 0 <= i < j < |ties| ensures ties[i] != ties[j] { BeforeIsTotal(ties[i], ties[j]); }
  }

  // ---- A whole judge turn --------------------------------------------------------

  /** The load once every session of moves has picked, in order. */
  function After(load: Load, moves: seq<Move>): Load
    decreases |moves|
  {
    if moves == [] then load
    else
      var prior, m := After(load, moves[..|moves| - 1]), moves[|moves| - 1];
      Charge(prior, m.user, Head(m, prior))
  }

  function LoadBefore(load: Load, moves: seq<Move>, i: nat): Load
    requires i <= |moves|
  {
    After(load, moves[..i])
  }

  function HeadAt(load: Load, moves: seq<Move>, i: nat): Option<string>
    requires i < |moves|
  {
    Head(moves[i], LoadBefore(load, moves, i))
  }

  lemma {:induction false} AfterSplit(load: Load, first: seq<Move>, second: seq<Move>)
    ensures After(load, first + second) == After(After(load, first), second)
    decreases |second|
  {
    if second == [] {
      assert first + second == first;
    } else {
      var prior := second[..|second| - 1];
      assert (first + second)[..|first + second| - 1] == first + prior;
      AfterSplit(load, first, prior);
    }
  }

  lemma AfterStep(load: Load, moves: seq<Move>, i: nat)
    requires i < |moves|
    ensures LoadBefore(load, moves, i + 1)
         == Charge(LoadBefore(load, moves, i), moves[i].user, HeadAt(load, moves, i))
  {
    assert moves[..i + 1][..i] == moves[..i];
  }

  lemma ChargedOnce(load: Load, user: string, head: Option<string>, relay: string)
    ensures At(Charge(load, user, head).sessions, relay) == At(load.sessions, relay) + if head == Some(relay) then 1 else 0
  {
  }

  lemma NotPicked(load: Load, user: string, head: Option<string>, key: Key)
    ensures head != Some(key.relay) || user != key.user ==>
      At(Charge(load, user, head).picked, key) == At(load.picked, key)
  {
  }

  /** Loads only grow through a turn, and a relay nobody picks from i on stays as it is. */
  lemma {:induction false} LoadGrows(load: Load, moves: seq<Move>, i: nat, j: nat, relay: string)
    requires i <= j <= |moves|
    ensures At(LoadBefore(load, moves, i).sessions, relay) <= At(LoadBefore(load, moves, j).sessions, relay)
    ensures (forall k :: i <= k < j ==> HeadAt(load, moves, k) != Some(relay)) ==>
      At(LoadBefore(load, moves, i).sessions, relay) == At(LoadBefore(load, moves, j).sessions, relay)
    decreases j
  {
    if i < j {
      hide LoadBefore, HeadAt, Charge, At;
      LoadGrows(load, moves, i, j - 1, relay);
      AfterStep(load, moves, j - 1);
      ChargedOnce(LoadBefore(load, moves, j - 1), moves[j - 1].user, HeadAt(load, moves, j - 1), relay);
    }
  }

  lemma {:induction false} PicksStay(load: Load, moves: seq<Move>, i: nat, j: nat, key: Key)
    requires i <= j <= |moves|
    requires forall k :: i <= k < j ==> HeadAt(load, moves, k) != Some(key.relay) || moves[k].user != key.user
    ensures At(LoadBefore(load, moves, i).picked, key) == At(LoadBefore(load, moves, j).picked, key)
    decreases j
  {
    if i < j {
      hide LoadBefore, HeadAt, Charge, At;
      PicksStay(load, moves, i, j - 1, key);
      AfterStep(load, moves, j - 1);
      NotPicked(LoadBefore(load, moves, j - 1), moves[j - 1].user, HeadAt(load, moves, j - 1), key);
    }
  }

  /** The relay picked at i is not picked again in the turn. */
  ghost predicate LastPick(load: Load, moves: seq<Move>, i: nat, relay: string) {
    && i < |moves| && HeadAt(load, moves, i) == Some(relay)
    && forall k :: i < k < |moves| ==> HeadAt(load, moves, k) != Some(relay)
  }

  /**
    At the end of a turn no picked relay stands more than one session above any
    relay of the tier it was last picked from.
   */
  lemma TurnIsBalanced(load: Load, moves: seq<Move>, i: nat, relay: string, other: string)
    requires LastPick(load, moves, i, relay)
    requires Open(moves[i], other)
    requires Tier(moves[i], LoadBefore(load, moves, i), other) == Tier(moves[i], LoadBefore(load, moves, i), relay)
    ensures At(After(load, moves).sessions, relay) <= At(After(load, moves).sessions, other) + 1
  {
    assert moves[..|moves|] == moves;
    HeadIsBest(moves[i], LoadBefore(load, moves, i));
    AfterStep(load, moves, i);
    LoadGrows(load, moves, i + 1, |moves|, relay);
    LoadGrows(load, moves, i, |moves|, other);
    assert NoBetter(moves[i], LoadBefore(load, moves, i), other, relay);
    hide Head, After;
  }

  /**
    The quota of a credential on a relay is passed in a turn only by a pick that
    found every relay of its session full.
   */
  lemma QuotaKept(load: Load, moves: seq<Move>, i: nat, relay: string)
    requires i < |moves| && HeadAt(load, moves, i) == Some(relay)
    requires forall k :: i < k < |moves| ==>
      HeadAt(load, moves, k) != Some(relay) || moves[k].user != moves[i].user
    ensures At(moves[i].held, relay) + At(After(load, moves).picked, Key(moves[i].user, relay)) <= QUOTA
         || forall x :: Open(moves[i], x) ==> Full(moves[i], LoadBefore(load, moves, i), x)
  {
    assert moves[..|moves|] == moves;
    HeadIsBest(moves[i], LoadBefore(load, moves, i));
    AfterStep(load, moves, i);
    PicksStay(load, moves, i + 1, |moves|, Key(moves[i].user, relay));
    hide Head, After;
  }

  /** How many of the first n picks went to relay. */
  ghost function Times(load: Load, moves: seq<Move>, n: nat, relay: string): nat
    requires n <= |moves|
  {
    if n == 0 then 0
    else Times(load, moves, n - 1, relay) + if HeadAt(load, moves, n - 1) == Some(relay) then 1 else 0
  }

  /** Each pick is charged once: a relay's load grows by exactly the picks of it. */
  lemma {:induction false} TurnIsCharged(load: Load, moves: seq<Move>, n: nat, relay: string)
    requires n <= |moves|
    ensures At(LoadBefore(load, moves, n).sessions, relay) == At(load.sessions, relay) + Times(load, moves, n, relay)
  {
    if n > 0 {
      hide LoadBefore, HeadAt, Charge, At;
      TurnIsCharged(load, moves, n - 1, relay);
      AfterStep(load, moves, n - 1);
      ChargedOnce(LoadBefore(load, moves, n - 1), moves[n - 1].user, HeadAt(load, moves, n - 1), relay);
    }
  }

  /** How many of the first n picks sent key's credential to its relay. */
  ghost function PicksOf(load: Load, moves: seq<Move>, n: nat, key: Key): nat
    requires n <= |moves|
  {
    if n == 0 then 0
    else
      var picked := HeadAt(load, moves, n - 1) == Some(key.relay) && moves[n - 1].user == key.user;
      PicksOf(load, moves, n - 1, key) + if picked then 1 else 0
  }

  lemma PickedOnce(load: Load, user: string, head: Option<string>, key: Key)
    ensures At(Charge(load, user, head).picked, key)
         == At(load.picked, key) + if head == Some(key.relay) && user == key.user then 1 else 0
  {
  }

  /** And so is the count of a credential's picks on a relay. */
  lemma {:induction false} PicksAreCounted(load: Load, moves: seq<Move>, n: nat, key: Key)
    requires n <= |moves|
    ensures At(LoadBefore(load, moves, n).picked, key) == At(load.picked, key) + PicksOf(load, moves, n, key)
  {
    if n > 0 {
      hide LoadBefore, HeadAt, Charge, At;
      PicksAreCounted(load, moves, n - 1, key);
      AfterStep(load, moves, n - 1);
      PickedOnce(LoadBefore(load, moves, n - 1), moves[n - 1].user, HeadAt(load, moves, n - 1), key);
    }
  }

  // ---- relayLoad ------------------------------------------------------------------

  class RelayLoad {
    var sessions: map<string, int>
    var picked: map<Key, int>

    function Now(): Load
      reads this
    {
      Load(sessions, picked)
    }

    /** liveRelayLoad */
    constructor (byRelay: map<string, int>)
      ensures Now() == Load(byRelay, map[])
    {
      sessions, picked := byRelay, map[];
    }

    /** The relays the session may go to, by tier, in canonical order. */
    method Tiers(m: Move, sorted: seq<string>) returns (clean: seq<string>, losing: seq<string>, full: seq<string>)
      requires sorted == Canon(m.relays)
      ensures clean == InOrder(sorted, InTier(m, Now(), 0)) && losing == InOrder(sorted, InTier(m, Now(), 1))
      ensures full == InOrder(sorted, InTier(m, Now(), 2))
    {
      clean, losing, full := [], [], [];
      CanonSorts(m.relays);
      for i := 0 to |sorted|
        invariant clean == InOrder(sorted[..i], InTier(m, Now(), 0))
        invariant losing == InOrder(sorted[..i], InTier(m, Now(), 1))
        invariant full == InOrder(sorted[..i], InTier(m, Now(), 2))
      {
        var relay := sorted[i];
        assert sorted[..i + 1][..i] == sorted[..i] && relay in m.relays;
        if relay == m.left || relay !in m.usable {
        } else if relay in m.crowded || At(m.held, relay) + At(picked, Key(m.user, relay)) >= QUOTA {
          full := full + [relay];
        } else if relay in m.lossy {
          losing := losing + [relay];
        } else {
          clean := clean + [relay];
        }
      }
      assert sorted[..|sorted|] == sorted;
    }

    /** The relays of tier with the least sessions. */
    method LeastLoaded(tier: seq<string>) returns (ties: seq<string>)
      requires tier != []
      ensures ties == InOrder(tier, LeastSet(sessions, tier))
    {
      var least := At(sessions, tier[0]);
      for i := 1 to |tier|
        invariant forall k :: 0 <= k < i ==> least <= At(sessions, tier[k])
        invariant exists k :: 0 <= k < i && At(sessions, tier[k]) == least
      {
        if At(sessions, tier[i]) < least { least := At(sessions, tier[i]); }
      }
      ties := [];
      for i := 0 to |tier|
        invariant ties == InOrder(tier[..i], LeastSet(sessions, tier))
      {
        assert tier[..i + 1][..i] == tier[..i];
        assert tier[i] in LeastSet(sessions, tier) <==> At(sessions, tier[i]) == least;
        if At(sessions, tier[i]) == least { ties := ties + [tier[i]]; }
      }
      assert tier[..|tier|] == tier;
    }

    method MoveHead(m: Move) returns (head: Option<string>)
      modifies this
      ensures head == Head(m, old(Now())) && Now() == Charge(old(Now()), m.user, head)
    {
      hide InOrder, Canon, Best, InTier, LeastSet;
      var sorted := Canon(m.relays);
      var clean, losing, full := Tiers(m, sorted);
      var tier, k := clean, 0;
      if tier == [] { tier, k := losing, 1; }
      if tier == [] { tier, k := full, 2; }
      TierIsBest(m, Now(), k);
      if tier == [] { return None; }
      var ties := LeastLoaded(tier);
      head := Some(ties[m.id % |ties|]);
      var h := head.value;
      sessions := sessions[h := At(sessions, h) + 1];
      picked := picked[Key(m.user, h) := At(picked, Key(m.user, h)) + 1];
    }
  }

  function LeastSet(sessions: map<string, int>, tier: seq<string>): set<string> {
    set r | r in tier && forall x | x in tier :: At(sessions, r) <= At(sessions, x)
  }

  /** k is the first tier any relay of the session is in, or the last. */
  ghost predicate FirstTier(m: Move, load: Load, k: nat) {
    && k <= 2 && (forall j :: 0 <= j < k ==> InTier(m, load, j) == {})
    && (k < 2 ==> exists r :: r in InTier(m, load, k))
  }

  lemma BestInTier(m: Move, load: Load, k: nat, tier: seq<string>, r: string)
    requires FirstTier(m, load, k) && forall x :: x in tier <==> x in InTier(m, load, k)
    ensures r in Best(m, load) <==> r in tier && r in LeastSet(load.sessions, tier)
  {
    hide Full;
    forall x | Open(m, x) ensures x in InTier(m, load, Tier(m, load, x)) && Tier(m, load, x) >= k {}
    if r in Best(m, load) {
      if k < 2 {
        var y :| y in InTier(m, load, k);
        assert NoBetter(m, load, y, r);
      }
      assert Tier(m, load, r) == k;
      forall x | x in tier ensures At(load.sessions, r) <= At(load.sessions, x) {
        assert NoBetter(m, load, x, r);
      }
    }
    if r in tier && r in LeastSet(load.sessions, tier) {
      forall x | x in m.relays && Open(m, x) ensures NoBetter(m, load, x, r) {
        if Tier(m, load, x) == k { assert x in tier; }
      }
    }
  }

  /** The least loaded of the first tier that has any are the best. */
  lemma TierIsBest(m: Move, load: Load, k: nat)
    requires k <= 2
    requires forall j :: 0 <= j < k ==> InOrder(Canon(m.relays), InTier(m, load, j)) == []
    requires k < 2 ==> InOrder(Canon(m.relays), InTier(m, load, k)) != []
    ensures var tier := InOrder(Canon(m.relays), InTier(m, load, k));
            InOrder(Canon(m.relays), Best(m, load)) == InOrder(tier, LeastSet(load.sessions, tier))
            && (tier == [] <==> Head(m, load).None?)
  {
    var sorted := Canon(m.relays);
    var tier := InOrder(sorted, InTier(m, load, k));
    forall j | 0 <= j <= k
      ensures InOrder(sorted, InTier(m, load, j)) == [] <==> InTier(m, load, j) == {}
      ensures forall x :: x in InOrder(sorted, InTier(m, load, j)) <==> x in InTier(m, load, j)
    {
      TierListed(m, load, j);
    }
    assert FirstTier(m, load, k) by { if k < 2 { assert tier[0] in tier; } }
    InOrderTwice(sorted, InTier(m, load, k), LeastSet(load.sessions, tier));
    forall r ensures r in Best(m, load) <==> r in tier && r in LeastSet(load.sessions, tier) {
      BestInTier(m, load, k, tier, r);
    }
    assert InTier(m, load, k) * LeastSet(load.sessions, tier) == Best(m, load);
    HeadIsBest(m, load);
    OpenInTier(m, load, k);
  }

  lemma TierListed(m: Move, load: Load, k: nat)
    ensures var tier := InOrder(Canon(m.relays), InTier(m, load, k));
            (tier == [] <==> InTier(m, load, k) == {}) && forall x :: x in tier <==> x in InTier(m, load, k)
  {
    CanonSorts(m.relays);
    InOrderHolds(Canon(m.relays), InTier(m, load, k));
    var tier := InOrder(Canon(m.relays), InTier(m, load, k));
    if tier != [] { assert tier[0] in tier; }
  }

  lemma OpenInTier(m: Move, load: Load, k: nat)
    requires FirstTier(m, load, k)
    ensures InTier(m, load, k) == {} <==> forall x :: !Open(m, x)
  {
    forall x | Open(m, x) ensures x in InTier(m, load, Tier(m, load, x)) {}
  }

  // ---- On the allocation book ---------------------------------------------------------

  /** What m knows of its relays' room is what the book b holds at now. */
  ghost predicate Weighs(m: Move, b: Ledger, now: int) {
    forall r :: r in m.relays ==>
      && (r in m.crowded <==> Crowded(b, Key(m.user, r), now))
      && At(m.held, r) == |HeldSet(b, Key(m.user, r), now)|
  }

  /** moveHead, reading the book for the credential's ghosts and allocations. */
  method MoveHeadOn(book: Book, load: RelayLoad, relays: seq<string>, left: string, id: nat, user: string,
                    usable: set<string>, lossy: set<string>, now: int)
    returns (head: Option<string>, m: Move)
    requires book.Valid()
    modifies load, book`orphanedTill, book`orphans, book`markOf, book`view
    ensures book.Valid() && book.view == SweepAll(old(book.view), user, Canon(relays), now)
    ensures SameRoom(old(book.view), book.view, now)
    ensures m == Move(relays, left, id, user, usable, lossy, m.crowded, m.held) && Weighs(m, old(book.view), now)
    ensures head == Head(m, old(load.Now())) && load.Now() == Charge(old(load.Now()), user, head)
  {
    var sorted := Canon(relays);
    CanonSorts(relays);
    ghost var b := book.view;
    var crowded := book.CrowdedRelays(user, sorted, now);
    var held := book.CredsHeldOn(user, sorted, now);
    forall r | r in relays ensures |HeldSet(book.view, Key(user, r), now)| == |HeldSet(b, Key(user, r), now)| {
      SweepAllHeld(b, user, sorted, now, Key(user, r));
    }
    SweepAllRoom(b, user, sorted, now);
    m := Move(relays, left, id, user, usable, lossy, crowded, held);
    hide Crowded, HeldSet, Head, Charge, SameRoom;
    assert Weighs(m, b, now);
    head := load.MoveHead(m);
  }

  // ---- recycleRelaySessions and restJudgedRelays --------------------------------------

  /** A session running on a relay: its stream, the relays it dialed (None before it has any) and its credential. */
  datatype Session = Session(id: nat, relays: Option<seq<string>>, user: string)

  /** hasOtherUsableRelay */
  predicate HasOther(s: Session, addr: string, usable: set<string>) {
    s.relays.Some? && exists r | r in s.relays.value :: r != addr && r in usable
  }

  /** A session that moves, and the relay it leaves. */
  datatype Mover = Mover(session: Session, left: string)

  /** The sessions that move off addr. */
  function Movers(sessions: seq<Session>, addr: string, usable: set<string>): seq<Mover>
    decreases |sessions|
  {
    if sessions == [] then []
    else
      var last := sessions[|sessions| - 1];
      Movers(sessions[..|sessions| - 1], addr, usable) + if HasOther(last, addr, usable) then [Mover(last, addr)] else []
  }

  /** The sessions of a whole turn that move: relay by relay as rested, each relay's in stream order. */
  function TurnMovers(rested: seq<string>, on: map<string, seq<Session>>, usable: set<string>): seq<Mover>
    decreases |rested|
  {
    if rested == [] then []
    else
      var last := rested[|rested| - 1];
      TurnMovers(rested[..|rested| - 1], on, usable) + Movers(if last in on then on[last] else [], last, usable)
  }

  /** Exactly the sessions move whose link has a usable relay other than the one they are on. */
  lemma {:induction false} MoversAre(sessions: seq<Session>, addr: string, usable: set<string>, m: Mover)
    ensures m in Movers(sessions, addr, usable) <==>
            m.left == addr && m.session in sessions && m.session.relays.Some?
            && exists r :: r in m.session.relays.value && r != addr && r in usable
    decreases |sessions|
  {
    if sessions != [] {
      assert sessions == sessions[..|sessions| - 1] + [sessions[|sessions| - 1]];
      MoversAre(sessions[..|sessions| - 1], addr, usable, m);
    }
  }

  lemma {:induction false} TurnMoversAre(rested: seq<string>, on: map<string, seq<Session>>, usable: set<string>, m: Mover)
    ensures m in TurnMovers(rested, on, usable) <==>
            m.left in rested && m.left in on && m.session in on[m.left] && m.session.relays.Some?
            && exists r :: r in m.session.relays.value && r != m.left && r in usable
    decreases |rested|
  {
    if rested != [] {
      var last := rested[|rested| - 1];
      assert rested == rested[..|rested| - 1] + [last];
      TurnMoversAre(rested[..|rested| - 1], on, usable, m);
      MoversAre(if last in on then on[last] else [], last, usable, m);
    }
  }

  /** What a whole turn knows: the relays usable and losing, and the allocation book as it began. */
  datatype Known = Known(usable: set<string>, lossy: set<string>, book: Ledger, now: int)

  /** m is what s asks for, weighing what is known of its relays. */
  ghost predicate Asks(m: Move, s: Mover, k: Known) {
    && Some(m.relays) == s.session.relays && m.left == s.left && m.id == s.session.id && m.user == s.session.user
    && m.usable == k.usable && m.lossy == k.lossy && Weighs(m, k.book, k.now)
  }

  ghost predicate AskedBy(moves: seq<Move>, movers: seq<Mover>, k: Known) {
    |moves| == |movers| && forall i :: 0 <= i < |moves| ==> Asks(moves[i], movers[i], k)
  }

  /** A sweep of the book between two moves changes nothing of what they weigh. */
  lemma SameRoomWeighs(m: Move, b: Ledger, c: Ledger, now: int)
    requires SameRoom(b, c, now) && Weighs(m, c, now)
    ensures Weighs(m, b, now)
  {
    hide Crowded, HeldSet;
  }

  lemma SameRoomChains(b: Ledger, c: Ledger, d: Ledger, now: int)
    requires SameRoom(b, c, now) && SameRoom(c, d, now)
    ensures SameRoom(b, d, now)
  {
    hide Crowded, HeldSet;
  }

  lemma AskedSame(moves: seq<Move>, movers: seq<Mover>, k: Known, c: Ledger)
    requires SameRoom(k.book, c, k.now) && AskedBy(moves, movers, k.(book := c))
    ensures AskedBy(moves, movers, k)
  {
    hide SameRoom, Weighs;
    forall i | 0 <= i < |moves| ensures Asks(moves[i], movers[i], k) {
      assert Asks(moves[i], movers[i], k.(book := c));
      SameRoomWeighs(moves[i], k.book, c, k.now);
    }
  }

  lemma AskedJoin(moves: seq<Move>, movers: seq<Mover>, more: seq<Move>, next: seq<Mover>, k: Known)
    requires AskedBy(moves, movers, k) && AskedBy(more, next, k)
    ensures AskedBy(moves + more, movers + next, k)
  {
    hide Asks;
  }

  ghost predicate HeadsOf(heads: seq<string>, load: Load, moves: seq<Move>) {
    && |heads| == |moves|
    && forall i :: 0 <= i < |moves| ==> HeadAt(load, moves, i) == Some(heads[i])
  }

  lemma HeadsMore(heads: seq<string>, load: Load, moves: seq<Move>, m: Move, h: string)
    requires HeadsOf(heads, load, moves) && Head(m, After(load, moves)) == Some(h)
    ensures HeadsOf(heads + [h], load, moves + [m])
    ensures After(load, moves + [m]) == Charge(After(load, moves), m.user, Some(h))
  {
    var all := moves + [m];
    assert all[..|moves|] == moves;
    hide Head, Charge;
    forall i | 0 <= i < |all| ensures HeadAt(load, all, i) == Some((heads + [h])[i]) {
      if i < |moves| {
        assert all[..i] == moves[..i];
        assert HeadAt(load, moves, i) == Some(heads[i]);
      }
    }
  }

  /**
    recycleRelaySessions: the sessions on addr, in stream order, that have
    another usable relay move, each to a head; the others stay. Every move
    weighs the book as it was when the first one did.
   */
  method RecycleRelaySessions(book: Book, load: RelayLoad, addr: string, sessions: seq<Session>,
                              usable: set<string>, lossy: set<string>, now: int)
    returns (heads: seq<string>, stayed: nat, ghost moves: seq<Move>)
    requires book.Valid()
    modifies load, book`orphanedTill, book`orphans, book`markOf, book`view
    ensures book.Valid() && SameRoom(old(book.view), book.view, now)
    ensures |heads| + stayed == |sessions|
    ensures AskedBy(moves, Movers(sessions, addr, usable), Known(usable, lossy, old(book.view), now))
    ensures HeadsOf(heads, old(load.Now()), moves) && load.Now() == After(old(load.Now()), moves)
  {
    hide *;
    ghost var k := Known(usable, lossy, book.view, now);
    heads, stayed, moves := [], 0, [];
    NobodyMoves(addr, k, load.Now());
    assert sessions[..0] == [];
    for i := 0 to |sessions|
      invariant book.Valid() && SameRoom(k.book, book.view, now)
      invariant |heads| + stayed == i && AskedBy(moves, Movers(sessions[..i], addr, usable), k)
      invariant HeadsOf(heads, old(load.Now()), moves) && load.Now() == After(old(load.Now()), moves)
    {
      var s := sessions[i];
      MoversMore(sessions, i, addr, usable);
      if HasOther(s, addr, usable) {
        ghost var b := book.view;
        var head, m := MoveHeadOn(book, load, s.relays.value, addr, s.id, s.user, usable, lossy, now);
        SameRoomWeighs(m, k.book, b, now);
        SameRoomChains(k.book, b, book.view, now);
        HeadExists(m, After(old(load.Now()), moves), s);
        HeadsMore(heads, old(load.Now()), moves, m, head.value);
        AskedMore(moves, Movers(sessions[..i], addr, usable), m, Mover(s, addr), k);
        moves, heads := moves + [m], heads + [head.value];
      } else {
        stayed := stayed + 1;
      }
    }
    assert sessions[..|sessions|] == sessions;
  }

  lemma NobodyMoves(addr: string, k: Known, load: Load)
    ensures AskedBy([], Movers([], addr, k.usable), k) && HeadsOf([], load, []) && After(load, []) == load
    ensures AskedBy([], TurnMovers([], map[], k.usable), k) && SameRoom(k.book, k.book, k.now)
  {
  }

  lemma MoversMore(sessions: seq<Session>, i: nat, addr: string, usable: set<string>)
    requires i < |sessions|
    ensures HasOther(sessions[i], addr, usable) ==> sessions[i].relays.Some?
    ensures Movers(sessions[..i + 1], addr, usable)
         == if HasOther(sessions[i], addr, usable) then Movers(sessions[..i], addr, usable) + [Mover(sessions[i], addr)]
            else Movers(sessions[..i], addr, usable)
  {
    assert sessions[..i + 1][..i] == sessions[..i];
  }

  lemma AskedMore(moves: seq<Move>, movers: seq<Mover>, m: Move, s: Mover, k: Known)
    requires AskedBy(moves, movers, k) && Some(m.relays) == s.session.relays && m.left == s.left
    requires m.id == s.session.id && m.user == s.session.user && m.usable == k.usable && m.lossy == k.lossy
    requires Weighs(m, k.book, k.now)
    ensures AskedBy(moves + [m], movers + [s], k)
  {
    assert Asks(m, s, k);
    hide Asks, Weighs;
  }

  lemma HeadExists(m: Move, load: Load, s: Session)
    requires HasOther(s, m.left, m.usable) && s.relays == Some(m.relays)
    ensures Head(m, load).Some?
  {
    HeadIsBest(m, load);
    var r :| r in m.relays && r != m.left && r in m.usable;
    assert Open(m, r);
  }

  /** The relays of verdicts rested by them: those not resting already, each once. */
  function NewlyRested(verdicts: seq<string>, resting: set<string>): seq<string>
    decreases |verdicts|
  {
    if verdicts == [] then []
    else
      var prior, v := NewlyRested(verdicts[..|verdicts| - 1], resting), verdicts[|verdicts| - 1];
      prior + if v in resting || v in prior then [] else [v]
  }

  /** Exactly the relays judged that do not rest already are rested, each once. */
  lemma {:induction false} NewlyRestedAre(verdicts: seq<string>, resting: set<string>, r: string)
    ensures r in NewlyRested(verdicts, resting) <==> r in verdicts && r !in resting
    ensures Once(NewlyRested(verdicts, resting))
    decreases |verdicts|
  {
    if verdicts != [] {
      assert verdicts == verdicts[..|verdicts| - 1] + [verdicts[|verdicts| - 1]];
      NewlyRestedAre(verdicts[..|verdicts| - 1], resting, r);
      NewlyRestedAre(verdicts[..|verdicts| - 1], resting, verdicts[|verdicts| - 1]);
    }
  }

  /**
    restJudgedRelays: every relay of the verdicts rests before any session
    moves, and all of the turn's picks share one load. Exactly the sessions of
    the relays rested that have another usable relay move, and each is sent as
    SentWell says, on the book as the turn found it: in particular to no relay
    rested in the same turn. fit are the relays nothing else is held against, on
    the sessions on each relay.
   */
  method RestJudgedRelays(book: Book, load: RelayLoad, verdicts: seq<string>, fit: set<string>, resting: set<string>,
                          on: map<string, seq<Session>>, lossy: set<string>, now: int)
    returns (rested: seq<string>, heads: seq<string>, ghost moves: seq<Move>)
    requires book.Valid()
    modifies load, book`orphanedTill, book`orphans, book`markOf, book`view
    ensures book.Valid() && rested == NewlyRested(verdicts, resting)
    ensures HeadsOf(heads, old(load.Now()), moves) && load.Now() == After(old(load.Now()), moves)
    ensures var k := Known(fit - resting - (set r | r in rested), lossy, old(book.view), now);
            var movers := TurnMovers(rested, on, k.usable);
            && AskedBy(moves, movers, k) && |heads| == |movers|
            && forall i :: 0 <= i < |heads| ==> SentWell(LoadBefore(old(load.Now()), moves, i), movers[i], heads[i], k)
  {
    rested := [];
    var out := resting;
    assert verdicts[..0] == [];
    for i := 0 to |verdicts|
      invariant rested == NewlyRested(verdicts[..i], resting) && out == resting + set r | r in rested
    {
      assert verdicts[..i + 1][..i] == verdicts[..i];
      if verdicts[i] !in out {
        out := out + {verdicts[i]};
        rested := rested + [verdicts[i]];
      }
    }
    assert verdicts[..|verdicts|] == verdicts;
    hide *;
    ghost var k := Known(fit - out, lossy, book.view, now);
    heads, moves := MoveAll(book, load, rested, fit - out, on, lossy, now);
    assert fit - out == fit - resting - set r | r in rested;
    TurnIsSentWell(old(load.Now()), moves, TurnMovers(rested, on, k.usable), heads, k);
  }

  method MoveAll(book: Book, load: RelayLoad, rested: seq<string>, usable: set<string>,
                 on: map<string, seq<Session>>, lossy: set<string>, now: int)
    returns (heads: seq<string>, ghost moves: seq<Move>)
    requires book.Valid()
    modifies load, book`orphanedTill, book`orphans, book`markOf, book`view
    ensures book.Valid()
    ensures HeadsOf(heads, old(load.Now()), moves) && load.Now() == After(old(load.Now()), moves)
    ensures AskedBy(moves, TurnMovers(rested, on, usable), Known(usable, lossy, old(book.view), now))
  {
    hide *;
    ghost var k := Known(usable, lossy, book.view, now);
    heads, moves := [], [];
    NobodyMoves("", k, load.Now());
    assert rested[..0] == [];
    TurnMoversNone(on, usable);
    for i := 0 to |rested|
      invariant book.Valid() && SameRoom(k.book, book.view, now)
      invariant AskedBy(moves, TurnMovers(rested[..i], on, usable), k)
      invariant HeadsOf(heads, old(load.Now()), moves) && load.Now() == After(old(load.Now()), moves)
    {
      var sessions := if rested[i] in on then on[rested[i]] else [];
      ghost var b := book.view;
      var more, stayed, also := RecycleRelaySessions(book, load, rested[i], sessions, usable, lossy, now);
      SameRoomChains(k.book, b, book.view, now);
      AskedSame(also, Movers(sessions, rested[i], usable), k, b);
      AskedJoin(moves, TurnMovers(rested[..i], on, usable), also, Movers(sessions, rested[i], usable), k);
      TurnMoversMore(rested, i, on, usable);
      HeadsJoin(heads, moves, more, also, old(load.Now()));
      heads, moves := heads + more, moves + also;
    }
    assert rested[..|rested|] == rested;
  }

  lemma TurnMoversNone(on: map<string, seq<Session>>, usable: set<string>)
    ensures TurnMovers([], on, usable) == TurnMovers([], map[], usable)
  {
  }

  lemma TurnMoversMore(rested: seq<string>, i: nat, on: map<string, seq<Session>>, usable: set<string>)
    requires i < |rested|
    ensures TurnMovers(rested[..i + 1], on, usable)
         == TurnMovers(rested[..i], on, usable)
            + Movers(if rested[i] in on then on[rested[i]] else [], rested[i], usable)
  {
    assert rested[..i + 1][..i] == rested[..i];
  }

  lemma HeadsJoin(heads: seq<string>, moves: seq<Move>, more: seq<string>, next: seq<Move>, load: Load)
    requires HeadsOf(heads, load, moves) && HeadsOf(more, After(load, moves), next)
    ensures HeadsOf(heads + more, load, moves + next) && After(load, moves + next) == After(After(load, moves), next)
  {
    var all := moves + next;
    AfterSplit(load, moves, next);
    hide Head, After;
    forall i | 0 <= i < |all| ensures HeadAt(load, all, i) == Some((heads + more)[i]) {
      if i < |moves| {
        assert all[..i] == moves[..i];
        assert HeadAt(load, moves, i) == Some(heads[i]);
      } else {
        var k := i - |moves|;
        assert all[..i] == moves + next[..k];
        AfterSplit(load, moves, next[..k]);
        assert HeadAt(After(load, moves), next, k) == Some(more[k]);
      }
    }
  }

  // ---- What a turn promises, on the allocation book ----------------------------------------

  /** The credential's ghosts crowd the relay, or what it holds there and this turn's picks come to the quota. */
  ghost predicate FullFor(k: Known, load: Load, user: string, relay: string) {
    || Crowded(k.book, Key(user, relay), k.now)
    || |HeldSet(k.book, Key(user, relay), k.now)| + At(load.picked, Key(user, relay)) >= QUOTA
  }

  /** 0 clean, 1 losing, 2 full. */
  ghost function TierFor(k: Known, load: Load, user: string, relay: string): nat {
    if FullFor(k, load, user, relay) then 2 else if relay in k.lossy then 1 else 0
  }

  /** Where a session may go. */
  predicate MayGo(s: Mover, k: Known, relay: string) {
    s.session.relays.Some? && relay in s.session.relays.value && relay != s.left && relay in k.usable
  }

  /**
    The session goes to a usable relay of its own that it did not leave, full
    only if all of those are, losing only if all of them are or are full, and no
    more loaded than another of its tier.
   */
  ghost predicate SentWell(load: Load, s: Mover, head: string, k: Known) {
    var user := s.session.user;
    && MayGo(s, k, head)
    && forall x :: MayGo(s, k, x) ==>
      || TierFor(k, load, user, head) < TierFor(k, load, user, x)
      || (TierFor(k, load, user, head) == TierFor(k, load, user, x) && At(load.sessions, head) <= At(load.sessions, x))
  }

  lemma AsksAlike(m: Move, s: Mover, k: Known, load: Load, relay: string)
    requires Asks(m, s, k)
    ensures MayGo(s, k, relay) <==> Open(m, relay)
    ensures relay in m.relays ==> (FullFor(k, load, m.user, relay) <==> Full(m, load, relay))
    ensures relay in m.relays ==> TierFor(k, load, m.user, relay) == Tier(m, load, relay)
  {
    hide Crowded, HeldSet;
  }

  lemma TurnIsSentWell(load: Load, moves: seq<Move>, movers: seq<Mover>, heads: seq<string>, k: Known)
    requires AskedBy(moves, movers, k) && HeadsOf(heads, load, moves)
    ensures |heads| == |movers|
    ensures forall i :: 0 <= i < |heads| ==> SentWell(LoadBefore(load, moves, i), movers[i], heads[i], k)
  {
    hide Head, TierFor, Tier, Asks, LoadBefore, MayGo, Open, FullFor, Full;
    forall i | 0 <= i < |heads| ensures SentWell(LoadBefore(load, moves, i), movers[i], heads[i], k) {
      var m, before := moves[i], LoadBefore(load, moves, i);
      assert HeadAt(load, moves, i) == Some(heads[i]);
      assert Asks(m, movers[i], k);
      AskedUser(m, movers[i], k);
      HeadIsBest(m, before);
      AsksAlike(m, movers[i], k, before, heads[i]);
      OpenIsNamed(m, heads[i]);
      forall x | MayGo(movers[i], k, x)
        ensures TierFor(k, before, m.user, x) == Tier(m, before, x) && NoBetter(m, before, x, heads[i])
      {
        AsksAlike(m, movers[i], k, before, x);
        OpenIsNamed(m, x);
      }
    }
  }

  lemma AskedUser(m: Move, s: Mover, k: Known)
    requires Asks(m, s, k)
    ensures m.user == s.session.user
  {
  }

  lemma OpenIsNamed(m: Move, relay: string)
    ensures Open(m, relay) ==> relay in m.relays
  {
  }

  /** The last pick of relay for user from i on. */
  lemma {:induction false} LastOf(load: Load, moves: seq<Move>, i: nat, user: string, relay: string) returns (j: nat)
    requires i < |moves| && HeadAt(load, moves, i) == Some(relay) && moves[i].user == user
    ensures i <= j < |moves| && HeadAt(load, moves, j) == Some(relay) && moves[j].user == user
    ensures forall k :: j < k < |moves| ==> HeadAt(load, moves, k) != Some(relay) || moves[k].user != user
    decreases |moves| - i
  {
    hide HeadAt;
    if n :| i < n < |moves| && HeadAt(load, moves, n) == Some(relay) && moves[n].user == user {
      j := LastOf(load, moves, n, user, relay);
    } else {
      j := i;
    }
  }

  lemma WholeLoad(load: Load, moves: seq<Move>)
    ensures LoadBefore(load, moves, |moves|) == After(load, moves)
  {
    assert moves[..|moves|] == moves;
  }

  /**
    What a credential holds on a relay it is sent to and the turn's picks of it
    there stay within the quota, unless a session of its was sent there that
    found every relay it might go to full.
   */
  lemma TurnKeepsQuota(load: Load, moves: seq<Move>, movers: seq<Mover>, heads: seq<string>, k: Known, i: nat)
    requires AskedBy(moves, movers, k) && HeadsOf(heads, load, moves) && i < |heads|
    ensures var user, relay := movers[i].session.user, heads[i];
            || |HeldSet(k.book, Key(user, relay), k.now)| + At(load.picked, Key(user, relay))
                 + PicksOf(load, moves, |moves|, Key(user, relay)) <= 10
            || exists j :: i <= j < |heads| && heads[j] == relay && movers[j].session.user == user
                && forall x :: MayGo(movers[j], k, x) ==> FullFor(k, LoadBefore(load, moves, j), user, x)
  {
    hide Head, LoadBefore, After, HeldSet, Crowded;
    var user, relay := movers[i].session.user, heads[i];
    assert HeadAt(load, moves, i) == Some(relay) && Asks(moves[i], movers[i], k);
    var j := LastOf(load, moves, i, user, relay);
    PicksAreCounted(load, moves, |moves|, Key(user, relay));
    WholeLoad(load, moves);
    assert HeadAt(load, moves, j) == Some(heads[j]) && Asks(moves[j], movers[j], k);
    HeadIsBest(moves[j], LoadBefore(load, moves, j));
    QuotaKept(load, moves, j, relay);
    hide Full, FullFor;
    if forall x :: Open(moves[j], x) ==> Full(moves[j], LoadBefore(load, moves, j), x) {
      forall x | MayGo(movers[j], k, x) ensures FullFor(k, LoadBefore(load, moves, j), user, x) {
        AsksAlike(moves[j], movers[j], k, LoadBefore(load, moves, j), x);
      }
    }
  }

  // ---- Whether the attempt dials the picked head first ---------------------------------------

  /** What the attempt after the move knows: the relay left rests, and the rest is as the pick found it. */
  function AroundOf(m: Move): Around { Around(m.usable - {m.left}, m.crowded, m.lossy) }

  /**
    The attempt orders by ghosts and losses, the pick by the quota too. The
    picked head leads the attempt if and only if no relay the session may go to
    is of a better tier to the attempt (and, with all of them crowded, it is
    losing as the one in front is). Every relay in its way is full by the quota
    alone.
   */
  lemma HeadLeadsWhen(m: Move, load: Load, h: Health)
    requires Head(m, load).Some?
    ensures var head, w := Head(m, load).value, AroundOf(m);
            var order := Assigned(w, h, m.relays, m.id);
            && order != []
            && (Led(w, order, head)[0] == head <==>
                && (forall x :: Open(m, x) ==> TierOf(w, head) <= TierOf(w, x))
                && (head in m.crowded ==> LosesAsFirst(w, m.relays, m.id, head)))
            && forall x :: Open(m, x) && TierOf(w, x) < TierOf(w, head) ==>
                x !in m.crowded && At(m.held, x) + At(load.picked, Key(m.user, x)) >= QUOTA
  {
    HeadIsBest(m, load);
    LeadsWhen(AroundOf(m), h, m.relays, m.id, Head(m, load).value);
    hide Head, Assigned, Led, LosesAsFirst;
    forall x | Open(m, x) ensures NoBetter(m, load, x, Head(m, load).value) {}
  }

  /** A credential at its quota on a: the pick is b, losing as it is, and the attempt dials a first. */
  lemma HeadNeedNotLead(h: Health)
    ensures var m := Move(["a", "b"], "c", 0, "u", {"a", "b"}, {"b"}, {}, map["a" := 10]);
            var w := AroundOf(m);
            && Head(m, Load(map[], map[])) == Some("b")
            && Assigned(w, h, m.relays, 0) != [] && Led(w, Assigned(w, h, m.relays, 0), "b")[0] == "a"
  {
    var m, load := Move(["a", "b"], "c", 0, "u", {"a", "b"}, {"b"}, {}, map["a" := 10]), Load(map[], map[]);
    var w := AroundOf(m);
    assert m.relays[0] == "a" && m.relays[1] == "b";
    assert Open(m, "a") && Open(m, "b") && Tier(m, load, "a") == 2 && Tier(m, load, "b") == 1;
    HeadIsBest(m, load);
    hide Head;
    assert Head(m, load).value == "b" by { assert NoBetter(m, load, "b", Head(m, load).value); }
    HeadLeadsWhen(m, load, h);
    AssignedHolds(w, h, m.relays, 0);
    var order := Assigned(w, h, m.relays, 0);
    hide Assigned;
    assert TierOf(w, "a") == 0 && TierOf(w, "b") == 1;
    assert order[0] in order;
  }

  // ---- lossyRelays ----------------------------------------------------------------------

  const JUDGE_MIN_PACKETS := 200
  const JUDGE_RATIO := 3.0
  const LOSSY_MARGIN := 0.005

  /** A rate is modelled exactly: no rounding. */
  function Rate(s: Sample): (r: real)
    ensures r >= 0.0 && (r > 0.0 ==> s.lost > 0)
  {
    if s.rx + s.lost == 0 then 0.0 else s.lost as real / (s.rx + s.lost) as real
  }

  /** The window weighed the relay of s. */
  predicate Weighed(s: Sample) { s.rx + s.lost >= JUDGE_MIN_PACKETS }

  predicate LosesAgainst(s: Sample, best: real) {
    s.lost > 0 && Rate(s) >= JUDGE_RATIO * best && Rate(s) - best >= LOSSY_MARGIN
  }

  /** s is the best relay weighed. */
  ghost predicate BestOf(samples: seq<Sample>, s: Sample) {
    s in samples && Weighed(s) && forall t :: t in samples && Weighed(t) ==> Rate(s) <= Rate(t)
  }

  /** lossyRelays, over the samples of one window. */
  method LossyRelays(samples: seq<Sample>) returns (out: set<string>)
    ensures forall relay :: relay in out ==> exists s, b :: LossyBeside(samples, relay, s, b)
    ensures forall s, b :: BestOf(samples, b) && s in samples && Weighed(s) && LosesAgainst(s, Rate(b)) ==> s.relay in out
  {
    var counted: seq<Sample> := [];
    for i := 0 to |samples|
      invariant forall s :: s in counted <==> s in samples[..i] && Weighed(s)
      invariant |counted| <= i && (|counted| < 2 ==> forall s, t :: s in counted && t in counted ==> s == t)
    {
      if Weighed(samples[i]) { counted := counted + [samples[i]]; }
    }
    assert samples[..|samples|] == samples;
    if |counted| < 2 { return {}; }
    var best := counted[0];
    for i := 1 to |counted|
      invariant best in counted && forall k :: 0 <= k < i ==> Rate(best) <= Rate(counted[k])
    {
      if Rate(counted[i]) < Rate(best) { best := counted[i]; }
    }
    assert BestOf(samples, best);
    out := {};
    for i := 0 to |counted|
      invariant forall relay :: relay in out ==> exists s :: LossyBeside(samples, relay, s, best)
      invariant forall k :: 0 <= k < i && LosesAgainst(counted[k], Rate(best)) ==> counted[k].relay in out
    {
      var s := counted[i];
      if s.lost == 0 || Rate(s) < JUDGE_RATIO * Rate(best) || Rate(s) - Rate(best) < LOSSY_MARGIN { continue; }
      assert LossyBeside(samples, s.relay, s, best);
      out := out + {s.relay};
    }
  }

  ghost predicate LossyBeside(samples: seq<Sample>, relay: string, s: Sample, b: Sample) {
    BestOf(samples, b) && s in samples && s.relay == relay && Weighed(s) && LosesAgainst(s, Rate(b))
  }

  /** No window makes every relay it weighed lossy, and a relay worse than a lossy one is lossy itself. */
  lemma BestIsNotLossy(samples: seq<Sample>, b: Sample, s: Sample, t: Sample)
    requires BestOf(samples, b) && LossyBeside(samples, s.relay, s, b) && Weighed(t) && t in samples
    ensures !LosesAgainst(b, Rate(b))
    ensures Rate(t) >= Rate(s) ==> LosesAgainst(t, Rate(b))
    ensures BestOf(samples, t) ==> Rate(t) == Rate(b) && !LosesAgainst(t, Rate(b))
  {
    assert Rate(b) <= Rate(t) && Rate(b) <= Rate(s);
  }
}
