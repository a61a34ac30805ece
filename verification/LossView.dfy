/**
  The loss book as a transition system over unbounded counters: which counters
  wait in the window, which are final, and what each arriving packet does to
  them (pkg/proxy/relay_loss.go, observe and finalizeLocked).
 */
module LossView {
  import opened Wrappers
  import opened LossLedger

  const RING := 4096
  const HORIZON := 1024
  const NEW_KEYPAIR := 256

  /** settled is every counter finalised since the reset, in order, across keypairs and jumps. */
  datatype View = View(have: bool, receiver: nat, hasLeft: bool, left: nat,
                       base: nat, top: nat, held: map<nat, string>, settled: seq<Outcome>)

  const START := View(false, 0, false, 0, 0, 0, map[], [])

  function Look(held: map<nat, string>, c: nat): Outcome {
    if c in held then Some(held[c]) else None
  }

  function Outcomes(held: map<nat, string>, from: nat, to: nat): (os: seq<Outcome>)
    requires from <= to
    ensures |os| == to - from
    ensures forall i :: 0 <= i < |os| ==> os[i] == Look(held, from + i)
  {
    seq(to - from, i requires 0 <= i => Look(held, from + i))
  }

  /** finalizeLocked: the window's counters up to upTo become final. */
  function Finalize(v: View, upTo: nat): View {
    if upTo <= v.base then v
    else v.(base := upTo, held := map c | c in v.held && upTo <= c :: v.held[c],
            settled := v.settled + Outcomes(v.held, v.base, upTo))
  }

  predicate Straggler(v: View, receiver: nat, ctr: nat) {
    v.have && receiver != v.receiver && (ctr >= NEW_KEYPAIR || (v.hasLeft && receiver == v.left))
  }

  /** A packet of another receiver index that is no straggler opens a keypair. */
  function Rekey(v: View, receiver: nat): View {
    if v.have && receiver == v.receiver then v
    else
      var done := Finalize(v, v.top);
      View(true, receiver, v.have || v.hasLeft, if v.have then v.receiver else v.left, 0, 0, map[], done.settled)
  }

  function Jump(v: View, ctr: nat): View {
    if ctr < v.base + RING then v
    else
      var base := ctr + 1 - HORIZON;
      v.(base := base, held := map[], top := if v.top < base then base else v.top)
  }

  function Book(v: View, ctr: nat, relay: string): View {
    var booked := v.(held := v.held[ctr := relay], top := if ctr + 1 > v.top then ctr + 1 else v.top);
    if booked.top > HORIZON then Finalize(booked, booked.top - HORIZON) else booked
  }

  function Observe(v: View, receiver: nat, ctr: nat, relay: string): View {
    if Straggler(v, receiver, ctr) then v
    else
      var keyed := Rekey(v, receiver);
      if ctr < keyed.base then keyed else Book(Jump(keyed, ctr), ctr, relay)
  }

  /** take's idle flush. */
  function Flush(v: View): View {
    if v.have then Finalize(v, v.top) else v
  }

  /** What holds between any two calls, over every run with jumps, rekeys and flushes. */
  ghost predicate Inv(v: View) {
    && v.base <= v.top <= v.base + HORIZON
    && (forall c :: c in v.held ==> v.base <= c < v.top)
    && (!v.have ==> v.top == 0)
  }

  datatype Event = Packet(receiver: nat, ctr: nat, relay: string) | Idle

  function Step(v: View, e: Event): View {
    match e
    case Packet(receiver, ctr, relay) => Observe(v, receiver, ctr, relay)
    case Idle => Flush(v)
  }

  function Run(v: View, es: seq<Event>): View {
    if es == [] then v else Step(Run(v, es[..|es| - 1]), es[|es| - 1])
  }

  lemma {:induction false} WindowAlwaysBounded(es: seq<Event>)
    ensures Inv(Run(START, es))
  {
    if es != [] {
      WindowAlwaysBounded(es[..|es| - 1]);
      InvStep(Run(START, es[..|es| - 1]), es[|es| - 1]);
    }
  }

  lemma InvStep(v: View, e: Event)
    requires Inv(v)
    ensures Inv(Step(v, e))
    ensures v.settled <= Step(v, e).settled
  {
    match e
    case Idle =>
    case Packet(receiver, ctr, relay) =>
      if !Straggler(v, receiver, ctr) {
        var keyed := Rekey(v, receiver);
        assert Inv(keyed);
        if keyed.base <= ctr {
          InvBook(Jump(keyed, ctr), ctr, relay);
        }
      }
  }

  lemma InvBook(v: View, ctr: nat, relay: string)
    requires Inv(v) && v.have && v.base <= ctr < v.base + RING
    ensures Inv(Book(v, ctr, relay))
    ensures v.settled <= Book(v, ctr, relay).settled
    ensures |Book(v, ctr, relay).settled| <= |v.settled| + RING - HORIZON
  {
  }

  /** One packet settles at most RING - HORIZON counters besides those a rekey flushes, at most HORIZON. */
  lemma SettledPerPacket(v: View, receiver: nat, ctr: nat, relay: string)
    requires Inv(v)
    ensures var v' := Observe(v, receiver, ctr, relay);
            && v.settled <= v'.settled
            && |v'.settled| - |v.settled| <= RING - HORIZON + (if v.have && receiver != v.receiver then HORIZON else 0)
  {
    if !Straggler(v, receiver, ctr) {
      var keyed := Rekey(v, receiver);
      if keyed.base <= ctr {
        InvBook(Jump(keyed, ctr), ctr, relay);
      }
    }
  }

  // ---- Order of arrival ----------------------------------------------------

  datatype Arrival = Arrival(ctr: nat, relay: string)

  /** Every packet of one keypair, with its counter sent once. */
  ghost predicate Distinct(as_: seq<Arrival>) {
    forall i, j :: 0 <= i < j < |as_| ==> as_[i].ctr != as_[j].ctr
  }

  function Top(as_: seq<Arrival>): nat {
    if as_ == [] then 0
    else
      var t := Top(as_[..|as_| - 1]);
      var last := as_[|as_| - 1].ctr + 1;
      if last > t then last else t
  }

  function Base(as_: seq<Arrival>): nat {
    if Top(as_) > HORIZON then Top(as_) - HORIZON else 0
  }

  /** No packet arrives below the window or past it. */
  ghost predicate InWindow(as_: seq<Arrival>) {
    forall i :: 0 <= i < |as_| ==> Base(as_[..i]) <= as_[i].ctr < Base(as_[..i]) + RING
  }

  function Table(as_: seq<Arrival>): map<nat, string> {
    if as_ == [] then map[] else Table(as_[..|as_| - 1])[as_[|as_| - 1].ctr := as_[|as_| - 1].relay]
  }

  function ObserveAll(receiver: nat, as_: seq<Arrival>): View {
    if as_ == [] then START
    else Observe(ObserveAll(receiver, as_[..|as_| - 1]), receiver, as_[|as_| - 1].ctr, as_[|as_| - 1].relay)
  }

  /** After an in-window run the book depends on the order only through the table of arrivals and the top. */
  ghost predicate Tracks(v: View, receiver: nat, table: map<nat, string>, top: nat) {
    && v.top == top
    && v.base == (if top > HORIZON then top - HORIZON else 0)
    && (v.have ==> v.receiver == receiver)
    && (!v.have ==> top == 0)
    && Split(v, table)
    && (forall c :: c in table ==> c < top)
  }

  /** Settled below base, held from base up: together exactly the table. */
  ghost predicate Split(v: View, table: map<nat, string>) {
    && v.settled == Outcomes(table, 0, v.base)
    && (forall c :: c in v.held <==> v.base <= c && c in table)
    && (forall c :: c in v.held ==> v.held[c] == table[c])
  }

  lemma SplitFinalize(v: View, table: map<nat, string>, upTo: nat)
    requires Split(v, table)
    ensures Split(Finalize(v, upTo), table)
  {
    if v.base < upTo {
      assert Outcomes(table, 0, upTo) == Outcomes(table, 0, v.base) + Outcomes(v.held, v.base, upTo);
    }
  }

  lemma SplitBook(v: View, table: map<nat, string>, a: Arrival)
    requires Split(v, table) && v.base <= a.ctr && a.ctr !in table
    ensures Split(Book(v, a.ctr, a.relay), table[a.ctr := a.relay])
  {
    hide Outcomes;
    var table' := table[a.ctr := a.relay];
    var booked := v.(held := v.held[a.ctr := a.relay], top := if a.ctr + 1 > v.top then a.ctr + 1 else v.top);
    assert Outcomes(table', 0, v.base) == Outcomes(table, 0, v.base);
    assert Split(booked, table');
    hide Split;
    if booked.top > HORIZON {
      SplitFinalize(booked, table', booked.top - HORIZON);
    }
  }

  lemma TracksObserve(v: View, receiver: nat, table: map<nat, string>, top: nat, a: Arrival)
    requires Tracks(v, receiver, table, top)
    requires v.base <= a.ctr < v.base + RING && a.ctr !in table
    ensures Tracks(Observe(v, receiver, a.ctr, a.relay), receiver, table[a.ctr := a.relay],
                   if a.ctr + 1 > top then a.ctr + 1 else top)
  {
    var keyed := Rekey(v, receiver);
    assert keyed.settled == v.settled;
    assert keyed.held.Keys == v.held.Keys;
    SplitBook(keyed, table, a);
  }

  lemma {:induction false} TracksAll(receiver: nat, as_: seq<Arrival>)
    requires Distinct(as_) && InWindow(as_)
    ensures Tracks(ObserveAll(receiver, as_), receiver, Table(as_), Top(as_))
  {
    if as_ != [] {
      var prior, a := as_[..|as_| - 1], as_[|as_| - 1];
      assert forall i :: 0 <= i < |prior| ==> prior[..i] == as_[..i];
      TracksAll(receiver, prior);
      assert as_[..|prior|] == prior;
      TableIsTheSet(prior);
      forall c | c in Table(prior) ensures c != a.ctr {
        assert Arrival(c, Table(prior)[c]) in prior;
      }
      TracksObserve(ObserveAll(receiver, prior), receiver, Table(prior), Top(prior), a);
    }
  }

  /** What a table and a top say about a set of packets, with no mention of an order. */
  ghost predicate Records(as_: seq<Arrival>, table: map<nat, string>, top: nat) {
    && (forall i :: 0 <= i < |as_| ==> as_[i].ctr in table && table[as_[i].ctr] == as_[i].relay && as_[i].ctr < top)
    && (forall c :: c in table ==> Arrival(c, table[c]) in as_)
    && (top == 0 || exists i :: 0 <= i < |as_| && as_[i].ctr + 1 == top)
  }

  lemma RecordsStep(as_: seq<Arrival>, table: map<nat, string>, top: nat, a: Arrival)
    requires Records(as_, table, top)
    requires forall i :: 0 <= i < |as_| ==> as_[i].ctr != a.ctr
    ensures Records(as_ + [a], table[a.ctr := a.relay], if a.ctr + 1 > top then a.ctr + 1 else top)
  {
    var as', table' := as_ + [a], table[a.ctr := a.relay];
    forall c | c in table' ensures Arrival(c, table'[c]) in as' {
      if c != a.ctr { assert Arrival(c, table[c]) in as_; } else { assert as'[|as_|] == a; }
    }
    assert as'[|as_|] == a;
    if top != 0 {
      var i :| 0 <= i < |as_| && as_[i].ctr + 1 == top;
      assert as'[i].ctr + 1 == top;
    }
  }

  lemma TableAppend(as_: seq<Arrival>, a: Arrival)
    ensures Table(as_ + [a]) == Table(as_)[a.ctr := a.relay]
    ensures Top(as_ + [a]) == if a.ctr + 1 > Top(as_) then a.ctr + 1 else Top(as_)
    ensures Distinct(as_ + [a]) ==> Distinct(as_) && forall i :: 0 <= i < |as_| ==> as_[i].ctr != a.ctr
  {
    var as' := as_ + [a];
    assert as'[..|as_|] == as_;
    assert as'[|as_|] == a && forall i :: 0 <= i < |as_| ==> as'[i] == as_[i];
  }

  lemma {:induction false} TableIsTheSet(as_: seq<Arrival>)
    requires Distinct(as_)
    ensures Records(as_, Table(as_), Top(as_))
  {
    if as_ != [] {
      var prior, a := as_[..|as_| - 1], as_[|as_| - 1];
      hide *;
      assert as_ == prior + [a];
      TableAppend(prior, a);
      TableIsTheSet(prior);
      RecordsStep(prior, Table(prior), Top(prior), a);
    }
  }

  lemma SameRecords(xs: seq<Arrival>, ys: seq<Arrival>, tx: map<nat, string>, ty: map<nat, string>, m: nat, n: nat)
    requires Records(xs, tx, m) && Records(ys, ty, n)
    requires forall a :: a in xs <==> a in ys
    ensures tx == ty && m == n
  {
    forall c | c in tx ensures c in ty && ty[c] == tx[c] {
      assert Arrival(c, tx[c]) in ys;
    }
    forall c | c in ty ensures c in tx {
      assert Arrival(c, ty[c]) in xs;
    }
    if m != 0 {
      var i :| 0 <= i < |xs| && xs[i].ctr + 1 == m;
      assert xs[i] in ys;
    }
    if n != 0 {
      var i :| 0 <= i < |ys| && ys[i].ctr + 1 == n;
      assert ys[i] in xs;
    }
  }

  /** After the flush every counter below the top is settled as the table says, with no gap left open. */
  lemma SettledByTable(receiver: nat, as_: seq<Arrival>)
    requires Distinct(as_) && InWindow(as_)
    ensures Flush(ObserveAll(receiver, as_)).settled == Outcomes(Table(as_), 0, Top(as_))
    ensures Settle(Outcomes(Table(as_), 0, Top(as_))).gap == 0
  {
    hide ObserveAll, Table, Top, Settle, Records, InWindow, Distinct;
    var v := ObserveAll(receiver, as_);
    TracksAll(receiver, as_);
    SplitFinalize(v, Table(as_), Top(as_));
    var os := Outcomes(Table(as_), 0, Top(as_));
    Tail(os);
    if Top(as_) != 0 {
      TopIsInTable(as_);
      assert os[|os| - 1] != None;
    }
  }

  lemma TopIsInTable(as_: seq<Arrival>)
    requires Distinct(as_) && Top(as_) != 0
    ensures Top(as_) - 1 in Table(as_)
  {
    hide Distinct, Top, Table;
    TableIsTheSet(as_);
  }

  /**
    Any two in-window arrival orders of the same packets settle, after the flush,
    the same counters the same way. The ledger of both (every relay's rx and lost,
    and the unplaced count) is then the declarative one of the arrivals.
   */
  lemma OrderDoesNotMatter(receiver: nat, xs: seq<Arrival>, ys: seq<Arrival>, relay: string)
    requires Distinct(xs) && InWindow(xs) && Distinct(ys) && InWindow(ys)
    requires forall a :: a in xs <==> a in ys
    ensures Flush(ObserveAll(receiver, xs)).settled == Flush(ObserveAll(receiver, ys)).settled
    ensures var os := Outcomes(Table(xs), 0, Top(xs));
            var l := Settle(Flush(ObserveAll(receiver, xs)).settled);
            && l.rx[relay] == |Delivered(os, relay)|
            && l.lost[relay] == |ChargedTo(os, relay)|
            && l.unplaced == |ClosedUncharged(os)|
            && l.gap == 0
  {
    SettledByTable(receiver, xs);
    SettledByTable(receiver, ys);
    TableIsTheSet(xs);
    TableIsTheSet(ys);
    SameRecords(xs, ys, Table(xs), Table(ys), Top(xs), Top(ys));
    ChargingRule(Outcomes(Table(xs), 0, Top(xs)), relay);
    UnplacedRule(Outcomes(Table(xs), 0, Top(xs)));
  }

  // ---- Keypairs ----------------------------------------------------------------

  /** The keypair just left is another than the current one. */
  ghost predicate KeypairsApart(v: View) { v.hasLeft ==> v.have && v.left != v.receiver }

  lemma {:induction false} KeypairsDiffer(es: seq<Event>)
    ensures KeypairsApart(Run(START, es))
  {
    if es != [] { KeypairsDiffer(es[..|es| - 1]); }
  }

  /** es without the packets of keypair left. */
  function WithoutKeypair(es: seq<Event>, left: nat): seq<Event> {
    if es == [] then []
    else
      var e := es[|es| - 1];
      WithoutKeypair(es[..|es| - 1], left) + if e.Packet? && e.receiver == left then [] else [e]
  }

  /**
    Once a keypair has been left, its packets still under way change nothing
    while the current one goes on, whatever their counters: the book is what it
    would be without them.
   */
  lemma {:induction false} StragglersChangeNothing(v: View, es: seq<Event>)
    requires v.have && v.hasLeft && v.left != v.receiver
    requires forall i :: 0 <= i < |es| && es[i].Packet? ==> es[i].receiver == v.receiver || es[i].receiver == v.left
    ensures Run(v, es) == Run(v, WithoutKeypair(es, v.left))
    ensures var w := Run(v, es); w.have && w.receiver == v.receiver && w.hasLeft && w.left == v.left
  {
    hide Step;
    if es != [] {
      var prior, e := es[..|es| - 1], es[|es| - 1];
      StragglersChangeNothing(v, prior);
      StepKeepsKeypair(Run(v, prior), e);
      KeepsLast(v, es, v.left);
    }
  }

  lemma KeepsLast(v: View, es: seq<Event>, left: nat)
    requires es != []
    ensures var prior, e := es[..|es| - 1], es[|es| - 1];
            Run(v, WithoutKeypair(es, left)) == if e.Packet? && e.receiver == left then Run(v, WithoutKeypair(prior, left))
                                                else Step(Run(v, WithoutKeypair(prior, left)), e)
  {
    hide Step, Run;
    var prior, e := es[..|es| - 1], es[|es| - 1];
    RunAppend(v, WithoutKeypair(prior, left), e);
    assert WithoutKeypair(prior, left) + [] == WithoutKeypair(prior, left);
  }

  lemma StepKeepsKeypair(v: View, e: Event)
    requires v.have && v.hasLeft && v.left != v.receiver
    requires e.Packet? ==> e.receiver == v.receiver || e.receiver == v.left
    ensures var w := Step(v, e);
            && w.have && w.receiver == v.receiver && w.hasLeft && w.left == v.left
            && (e.Packet? && e.receiver == v.left ==> w == v)
  {
  }

  /**
    A packet of an index neither current nor just left opens a keypair if and
    only if its counter is below 256, and changes nothing else. Then every
    counter of the old keypair below its top is settled, the old keypair is the
    one just left, and the new one has this packet alone.
   */
  lemma NewKeypairOpens(v: View, receiver: nat, ctr: nat, relay: string)
    requires Inv(v) && v.have && receiver != v.receiver && !(v.hasLeft && receiver == v.left)
    ensures var w := Observe(v, receiver, ctr, relay);
            if ctr < 256
            then && w.have && w.receiver == receiver && w.hasLeft && w.left == v.receiver
                 && w.settled == v.settled + Outcomes(v.held, v.base, v.top)
                 && w.base == 0 && w.top == ctr + 1 && w.held == map[ctr := relay]
            else w == v
  {
    assert v.settled + Outcomes(v.held, v.base, v.base) == v.settled;
  }

  // ---- Conservation and the jump ---------------------------------------------

  /** Settled counters are only ever appended, so what a run has charged it never takes back. */
  lemma {:induction false} SettledOnlyGrows(es: seq<Event>, n: nat)
    requires n <= |es|
    ensures Run(START, es[..n]).settled <= Run(START, es).settled
  {
    if n == |es| {
      assert es[..n] == es;
    } else {
      var prior := es[..|es| - 1];
      assert prior[..n] == es[..n];
      SettledOnlyGrows(prior, n);
      WindowAlwaysBounded(prior);
      InvStep(Run(START, prior), es[|es| - 1]);
    }
  }

  lemma {:induction false} RunGrows(v: View, es: seq<Event>)
    requires Inv(v)
    ensures v.settled <= Run(v, es).settled && Inv(Run(v, es))
  {
    if es != [] {
      RunGrows(v, es[..|es| - 1]);
      InvStep(Run(v, es[..|es| - 1]), es[|es| - 1]);
    }
  }

  /** The relay is charged with counter c for a run that ends after the first n settled and began among them. */
  ghost predicate ChargedAcross(os: seq<Outcome>, n: nat, a: int, c: int, b: int, relay: string) {
    a < n <= b && ChargedBetween(os, a, c, b, relay)
  }

  /** A run of events from v settles counters so that c is charged across the n-th. */
  ghost predicate CanCharge(v: View, n: nat, es: seq<Event>, a: int, c: int, b: int, relay: string) {
    ChargedAcross(Run(v, es).settled, n, a, c, b, relay)
  }

  /** What is charged across the end of a settled prefix begins at its last delivery, less than a chunk before the end. */
  lemma AcrossIsFromTheTail(os: seq<Outcome>, n: nat, a: int, c: int, b: int, relay: string)
    requires n <= |os| && ChargedAcross(os, n, a, c, b, relay)
    ensures var l := Settle(os[..n]);
            l.last == Some(relay) && l.gap < CHUNK && a == n - 1 - l.gap && (c < n ==> l.gap > 0)
  {
    var l := Settle(os[..n]);
    Tail(os[..n]);
    assert os[..n][a] == os[a];
    if l.gap < n {
      assert os[..n][n - 1 - l.gap] == os[n - 1 - l.gap];
    }
  }

  /** What a jump leaves: an empty window below its own packet, and the settled counters as they were. */
  lemma Jumped(v: View, ctr: nat, relay: string)
    requires Inv(v) && v.have && ctr >= v.base + RING
    ensures Observe(v, v.receiver, ctr, relay)
         == v.(base := ctr + 1 - HORIZON, top := ctr + 1, held := map[ctr := relay])
    ensures Jumpy(Observe(v, v.receiver, ctr, relay))
  {
  }

  /** Booked in a full window without passing its top, a packet settles nothing. */
  lemma BooksLow(v: View, c: nat, next: string)
    requires v.have && v.base + HORIZON == v.top && v.base <= c < v.top
    ensures Observe(v, v.receiver, c, next) == v.(held := v.held[c := next])
  {
  }

  /** Booked d above the top of a full window, a packet settles d + 1 counters. */
  lemma BooksHigh(v: View, d: nat, relay: string)
    requires v.have && v.base + HORIZON == v.top && d <= 1
    ensures Observe(v, v.receiver, v.top + d, relay).settled
         == v.settled + Outcomes(v.held[v.top + d := relay], v.base, v.base + d + 1)
  {
  }

  /** The outcomes of d missing counters, at most one. */
  function Missing(d: nat): seq<Outcome> { if d == 0 then [] else [None] }

  lemma NextOutcomes(held: map<nat, string>, base: nat, d: nat, next: string)
    requires d <= 1 && base + d in held && held[base + d] == next && forall c :: base <= c < base + d ==> c !in held
    ensures Outcomes(held, base, base + d + 1) == Missing(d) + [Some(next)]
  {
  }

  lemma RunTwo(v: View, first: Event, second: Event)
    ensures Run(v, [first, second]) == Step(Step(v, first), second)
  {
    RunAppend(v, [], first);
    RunAppend(v, [first], second);
    assert [] + [first] == [first] && [first] + [second] == [first, second];
  }

  /** A full window with nothing waiting at its bottom, as a jump leaves it. */
  ghost predicate Jumpy(v: View) {
    v.have && v.base + HORIZON == v.top && forall c :: c in v.held ==> c > v.base + 1
  }

  /** In such a window a delivery d above the base is settled next, behind d missing ones. */
  lemma SettlesLow(v: View, d: nat, next: string, relay: string)
    requires Jumpy(v) && d <= 1
    ensures var low, high := Packet(v.receiver, v.base + d, next), Packet(v.receiver, v.top + d, relay);
            Step(Step(v, low), high).settled == v.settled + (Missing(d) + [Some(next)])
  {
    hide Observe, Outcomes, Missing;
    BooksLow(v, v.base + d, next);
    var w := Observe(v, v.receiver, v.base + d, next);
    BooksHigh(w, d, relay);
    NextOutcomes(w.held[w.top + d := relay], w.base, d, next);
  }

  /** A tail shorter than a chunk behind a delivery, d more missing counters, and a delivery of the same relay. */
  lemma TailThenDelivery(os: seq<Outcome>, l: Ledger, d: nat, relay: string)
    requires TailOf(os, l) && l.last == Some(relay) && 0 < l.gap + d < CHUNK && d <= 1
    ensures ChargedAcross(os + (Missing(d) + [Some(relay)]), |os|, |os| - 1 - l.gap, |os| - l.gap, |os| + d, relay)
  {
    var tail := Missing(d) + [Some(relay)];
    assert |tail| == d + 1 && tail[d] == Some(relay) && (d == 1 ==> tail[0] == None);
    hide Missing;
    var more, a, b := os + tail, |os| - 1 - l.gap, |os| + d;
    assert more[a] == os[a] && more[b] == tail[d];
    forall k | a < k < b ensures more[k] == None {
      assert more[k] == if k < |os| then os[k] else tail[k - |os|];
    }
  }

  /** With a delivery less than a chunk before it, what may follow such a window charges that delivery's relay across it. */
  lemma JumpyCanCharge(w: View, relay: string) returns (es: seq<Event>, a: int, c: int, b: int)
    requires var l := Settle(w.settled); Jumpy(w) && l.last != None && l.gap < CHUNK
    ensures var l := Settle(w.settled);
            CanCharge(w, |w.settled|, es, a, c, b, l.last.value) && (l.gap > 0 ==> c < |w.settled|)
  {
    var l, n := Settle(w.settled), |w.settled|;
    var d := if l.gap == 0 then 1 else 0;
    hide Settle, Run, Step, ChargedAcross, CanCharge, Missing, Jumpy, TailOf;
    var low, high := Packet(w.receiver, w.base + d, l.last.value), Packet(w.receiver, w.top + d, relay);
    SettlesLow(w, d, l.last.value, relay);
    RunTwo(w, low, high);
    Tail(w.settled);
    TailThenDelivery(w.settled, l, d, l.last.value);
    es, a, c, b := [low, high], n - 1 - l.gap, n - l.gap, n + d;
    assert CanCharge(w, n, es, a, c, b, l.last.value) by { Charges(w, n, es, a, c, b, l.last.value); }
  }

  lemma Charges(v: View, n: nat, es: seq<Event>, a: int, c: int, b: int, relay: string)
    requires ChargedAcross(Run(v, es).settled, n, a, c, b, relay)
    ensures CanCharge(v, n, es, a, c, b, relay)
  {
  }

  /**
    The code's remark says a jump counts nothing across it. A jump settles
    nothing, but it leaves the gap and the last relay in place: packets may
    follow that make it charge a relay for a run beginning before the jump and
    ending after it if and only if there was a delivery less than a chunk of
    missing counters before the jump. Losses from before the jump itself are
    charged that way if and only if some were open then.
   */
  lemma JumpCarriesTheGap(v: View, ctr: nat, relay: string)
    requires Inv(v) && v.have && ctr >= v.base + RING
    ensures var v', l, n := Observe(v, v.receiver, ctr, relay), Settle(v.settled), |v.settled|;
            && v'.settled == v.settled
            && ((exists es, a, c, b, r :: CanCharge(v', n, es, a, c, b, r)) <==> l.last != None && l.gap < CHUNK)
            && ((exists es, a, c, b, r :: CanCharge(v', n, es, a, c, b, r) && c < n)
                <==> l.last != None && 0 < l.gap < CHUNK)
  {
    var v', l, n := Observe(v, v.receiver, ctr, relay), Settle(v.settled), |v.settled|;
    Jumped(v, ctr, relay);
    InvStep(v, Packet(v.receiver, ctr, relay));
    hide Observe, Settle, Inv;
    forall es, a, c, b, r | CanCharge(v', n, es, a, c, b, r)
      ensures l.last != None && l.gap < CHUNK && (c < n ==> l.gap > 0)
    {
      RunGrows(v', es);
      assert Run(v', es).settled[..n] == v.settled;
      AcrossIsFromTheTail(Run(v', es).settled, n, a, c, b, r);
    }
    if l.last != None && l.gap < CHUNK {
      var es, a, c, b := JumpyCanCharge(v', relay);
    }
  }

  lemma RunAppend(v: View, es: seq<Event>, e: Event)
    ensures Run(v, es + [e]) == Step(Run(v, es), e)
  {
    assert (es + [e])[..|es|] == es;
  }

  const BEFORE_JUMP := View(true, 1, false, 0, 2, 1026, map[1025 := "a"], [Some("a"), None])
  const AFTER_JUMP := View(true, 1, false, 0, 7977, 9001, map[7977 := "a", 9000 := "a"], [Some("a"), None])

  lemma ReachesJump()
    ensures Run(START, [Packet(1, 0, "a"), Packet(1, 1025, "a")]) == BEFORE_JUMP
  {
    var v1 := View(true, 1, false, 0, 0, 1, map[0 := "a"], []);
    assert Observe(START, 1, 0, "a") == v1;
    assert Observe(v1, 1, 1025, "a") == BEFORE_JUMP by {
      assert Outcomes(map[0 := "a", 1025 := "a"], 0, 2) == [Some("a"), None];
    }
    RunAppend(START, [], Packet(1, 0, "a"));
    RunAppend(START, [Packet(1, 0, "a")], Packet(1, 1025, "a"));
  }

  lemma PassesJump()
    ensures Observe(Observe(BEFORE_JUMP, 1, 9000, "a"), 1, 7977, "a") == AFTER_JUMP
    ensures Observe(AFTER_JUMP, 1, 9001, "a").settled == [Some("a"), None, Some("a")]
  {
    var v := View(true, 1, false, 0, 7977, 9001, map[9000 := "a"], [Some("a"), None]);
    assert Observe(BEFORE_JUMP, 1, 9000, "a") == v;
    assert Observe(v, 1, 7977, "a") == AFTER_JUMP;
    assert Outcomes(map[7977 := "a", 9000 := "a", 9001 := "a"], 7977, 7978) == [Some("a")];
  }

  /** A run where counter 1 is charged to "a" because of a delivery nearly 8000 counters later, across a jump. */
  lemma JumpChargesAcross()
    ensures var es := [Packet(1, 0, "a"), Packet(1, 1025, "a")] + [Packet(1, 9000, "a")]
                      + [Packet(1, 7977, "a")] + [Packet(1, 9001, "a")];
            Settle(Run(START, es).settled).lost == multiset{"a"}
  {
    ReachesJump();
    PassesJump();
    var es := [Packet(1, 0, "a"), Packet(1, 1025, "a")];
    RunAppend(START, es, Packet(1, 9000, "a"));
    RunAppend(START, es + [Packet(1, 9000, "a")], Packet(1, 7977, "a"));
    RunAppend(START, es + [Packet(1, 9000, "a")] + [Packet(1, 7977, "a")], Packet(1, 9001, "a"));
    SettleAppend([], Some("a"));
    SettleAppend([Some("a")], None);
    SettleAppend([Some("a"), None], Some("a"));
  }
}
