/**
  What the downlink loss book means, independently of its ring buffer: how a
  sequence of finalised counters, each delivered through a relay or missing,
  is charged to the relays (pkg/proxy/relay_loss.go).
 */
module LossLedger {
  import opened Wrappers

  /** A run of this many missing counters, or more, is charged to nobody. */
  const CHUNK := 8

  /** What became of one finalised counter: the relay it came through, or None if it never came. */
  type Outcome = Option<string>

  datatype Ledger = Ledger(last: Option<string>, gap: nat, unplaced: nat,
                           rx: multiset<string>, lost: multiset<string>)

  const EMPTY := Ledger(None, 0, 0, multiset{}, multiset{})

  /** placeGapLocked: settles the run of missing counters that a delivery through next has closed. */
  function PlaceGap(l: Ledger, next: string): Ledger {
    if l.gap == 0 then l
    else if l.last == Some(next) && l.gap < CHUNK then
      l.(lost := l.lost[next := l.lost[next] + l.gap], gap := 0)
    else l.(unplaced := l.unplaced + l.gap, gap := 0)
  }

  /** One turn of finalizeLocked's loop. */
  function SettleOne(l: Ledger, o: Outcome): Ledger {
    match o
    case None => l.(gap := l.gap + 1)
    case Some(relay) =>
      var placed := PlaceGap(l, relay);
      placed.(last := Some(relay), rx := placed.rx + multiset{relay})
  }

  function Settle(os: seq<Outcome>): Ledger {
    if os == [] then EMPTY else SettleOne(Settle(os[..|os| - 1]), os[|os| - 1])
  }

  lemma SettleAppend(os: seq<Outcome>, o: Outcome)
    ensures Settle(os + [o]) == SettleOne(Settle(os), o)
  {
    assert (os + [o])[..|os|] == os;
  }

  // ---- The declarative reading ------------------------------------------

  /** Counter c is missing, in a run shorter than a chunk whose two neighbours both came through relay. */
  ghost predicate ChargedBetween(os: seq<Outcome>, a: int, c: int, b: int, relay: string) {
    && 0 <= a < c < b < |os|
    && b - a - 1 < CHUNK
    && os[a] == Some(relay) && os[b] == Some(relay)
    && forall k :: a < k < b ==> os[k] == None
  }

  ghost predicate Charged(os: seq<Outcome>, c: int, relay: string) {
    exists a, b :: ChargedBetween(os, a, c, b, relay)
  }

  /** Counter c is missing and a later counter was delivered, so its run is closed. */
  ghost predicate Closed(os: seq<Outcome>, c: int) {
    && 0 <= c < |os| && os[c] == None
    && exists b :: c < b < |os| && os[b] != None
  }

  ghost function Delivered(os: seq<Outcome>, relay: string): set<int> {
    set c | 0 <= c < |os| && os[c] == Some(relay)
  }

  ghost function ChargedTo(os: seq<Outcome>, relay: string): set<int> {
    set c | 0 <= c < |os| && Charged(os, c, relay)
  }

  ghost function ClosedUncharged(os: seq<Outcome>): set<int> {
    set c | 0 <= c < |os| && Closed(os, c) && forall relay :: !Charged(os, c, relay)
  }

  /** The ledger's last and gap describe the tail: gap missing counters after one delivered through last. */
  ghost predicate TailOf(os: seq<Outcome>, l: Ledger) {
    && l.gap <= |os|
    && (forall k :: |os| - l.gap <= k < |os| ==> os[k] == None)
    && (l.gap == |os| ==> l.last == None)
    && (l.gap < |os| ==> l.last != None && os[|os| - 1 - l.gap] == l.last)
  }

  lemma TailStep(os: seq<Outcome>, l: Ledger, o: Outcome)
    requires TailOf(os, l)
    ensures TailOf(os + [o], SettleOne(l, o))
  {
    var l', os' := SettleOne(l, o), os + [o];
    if o == None && l.gap < |os| {
      assert os'[|os'| - 1 - l'.gap] == os'[|os| - 1 - l.gap];
    }
  }

  lemma {:induction false} Tail(os: seq<Outcome>)
    ensures TailOf(os, Settle(os))
  {
    if os != [] {
      var prior, o := os[..|os| - 1], os[|os| - 1];
      assert os == prior + [o];
      Tail(prior);
      TailStep(prior, Settle(prior), o);
    }
  }

  function Interval(lo: int, hi: int): (s: set<int>)
    requires lo <= hi
    ensures |s| == hi - lo
    ensures forall k :: k in s <==> lo <= k < hi
    decreases hi - lo
  {
    if lo == hi then {} else Interval(lo, hi - 1) + {hi - 1}
  }

  /** Whether a delivery o after a tail that l describes is charged with the tail. */
  predicate Places(l: Ledger, o: Outcome) {
    o != None && l.last == o && l.gap < CHUNK
  }

  /** A run of os stays charged when a counter follows, and lies before the tail. */
  lemma ChargedStays(os: seq<Outcome>, l: Ledger, o: Outcome, c: int, relay: string)
    requires TailOf(os, l) && Charged(os, c, relay)
    ensures Charged(os + [o], c, relay) && c < |os| - l.gap
  {
    var a, b :| ChargedBetween(os, a, c, b, relay);
    var os' := os + [o];
    assert forall k :: 0 <= k < |os| ==> os'[k] == os[k];
    assert ChargedBetween(os', a, c, b, relay);
  }

  /** A run charged once o has followed was charged before, or is the tail and o places it. */
  lemma ChargedBefore(os: seq<Outcome>, l: Ledger, o: Outcome, c: int, relay: string)
    requires TailOf(os, l) && Charged(os + [o], c, relay)
    ensures Charged(os, c, relay) || (o == Some(relay) && Places(l, o) && |os| - l.gap <= c < |os|)
  {
    var os' := os + [o];
    assert forall k :: 0 <= k < |os| ==> os'[k] == os[k];
    var a, b :| ChargedBetween(os', a, c, b, relay);
    if b < |os| {
      assert ChargedBetween(os, a, c, b, relay);
    } else {
      assert os'[|os| - 1 - l.gap] == l.last;
      assert a == |os| - 1 - l.gap;
    }
  }

  lemma TailCharged(os: seq<Outcome>, l: Ledger, o: Outcome, c: int)
    requires TailOf(os, l) && Places(l, o) && |os| - l.gap <= c < |os|
    ensures Charged(os + [o], c, o.value)
  {
    var os' := os + [o];
    assert forall k :: 0 <= k < |os| ==> os'[k] == os[k];
    assert ChargedBetween(os', |os| - 1 - l.gap, c, |os|, o.value);
  }

  /** A delivery at the end of os charges its relay with exactly the tail it closes, or with nothing. */
  lemma ChargedAppend(os: seq<Outcome>, l: Ledger, o: Outcome, relay: string)
    requires TailOf(os, l)
    ensures |ChargedTo(os + [o], relay)| ==
            |ChargedTo(os, relay)| + if o == Some(relay) && Places(l, o) then l.gap else 0
  {
    var os' := os + [o];
    var added := if o == Some(relay) && Places(l, o) then Interval(|os| - l.gap, |os|) else {};
    forall c | c in ChargedTo(os, relay) ensures c in ChargedTo(os', relay) && c !in added {
      ChargedStays(os, l, o, c, relay);
    }
    forall c | c in ChargedTo(os', relay) ensures c in ChargedTo(os, relay) || c in added {
      ChargedBefore(os, l, o, c, relay);
    }
    forall c | c in added ensures c in ChargedTo(os', relay) {
      TailCharged(os, l, o, c);
    }
    assert ChargedTo(os', relay) == ChargedTo(os, relay) + added;
  }

  lemma DeliveredAppend(os: seq<Outcome>, o: Outcome, relay: string)
    ensures |Delivered(os + [o], relay)| == |Delivered(os, relay)| + if o == Some(relay) then 1 else 0
  {
    var os' := os + [o];
    assert forall k :: 0 <= k < |os| ==> os'[k] == os[k];
    assert Delivered(os', relay) == Delivered(os, relay) + if o == Some(relay) then {|os|} else {};
  }

  /** Each relay is charged with exactly the missing counters a chunk places on it, and credited with its deliveries. */
  lemma {:induction false} ChargingRule(os: seq<Outcome>, relay: string)
    ensures Settle(os).rx[relay] == |Delivered(os, relay)|
    ensures Settle(os).lost[relay] == |ChargedTo(os, relay)|
  {
    if os == [] {
      assert Delivered(os, relay) == {} && ChargedTo(os, relay) == {};
    } else {
      var prior, o := os[..|os| - 1], os[|os| - 1];
      assert os == prior + [o];
      ChargingRule(prior, relay);
      Tail(prior);
      ChargedAppend(prior, Settle(prior), o, relay);
      DeliveredAppend(prior, o, relay);
    }
  }

  lemma ClosedAppend(os: seq<Outcome>, l: Ledger, o: Outcome, c: int)
    requires TailOf(os, l)
    ensures Closed(os + [o], c) <==> Closed(os, c) || (o != None && |os| - l.gap <= c < |os|)
    ensures Closed(os, c) ==> c < |os| - l.gap
  {
    var os' := os + [o];
    assert forall k :: 0 <= k < |os| ==> os'[k] == os[k];
    if |os| - l.gap <= c < |os| && o != None {
      assert os'[|os|] != None;
    } else if Closed(os, c) {
      var b :| c < b < |os| && os[b] != None;
      assert os'[b] != None;
    } else if Closed(os', c) {
      assert os'[|os| - 1 - l.gap] != None;
      assert os[|os| - 1 - l.gap] != None;
    }
  }

  lemma UnplacedAppend(os: seq<Outcome>, l: Ledger, o: Outcome)
    requires TailOf(os, l)
    ensures |ClosedUncharged(os + [o])| ==
            |ClosedUncharged(os)| + if o != None && !Places(l, o) then l.gap else 0
  {
    var os' := os + [o];
    var added := if o != None && !Places(l, o) then Interval(|os| - l.gap, |os|) else {};
    forall c | c in ClosedUncharged(os) ensures c in ClosedUncharged(os') && c !in added {
      ClosedAppend(os, l, o, c);
      forall relay ensures !Charged(os', c, relay) {
        if Charged(os', c, relay) { ChargedBefore(os, l, o, c, relay); }
      }
    }
    forall c | c in ClosedUncharged(os') ensures c in ClosedUncharged(os) || c in added {
      ClosedAppend(os, l, o, c);
      forall relay ensures !Charged(os, c, relay) {
        if Charged(os, c, relay) { ChargedStays(os, l, o, c, relay); }
      }
      if Places(l, o) && |os| - l.gap <= c { TailCharged(os, l, o, c); }
    }
    forall c | c in added ensures c in ClosedUncharged(os') {
      ClosedAppend(os, l, o, c);
      forall relay ensures !Charged(os', c, relay) {
        if Charged(os', c, relay) {
          ChargedBefore(os, l, o, c, relay);
          ChargedStays(os, l, o, c, relay);
        }
      }
    }
    assert ClosedUncharged(os') == ClosedUncharged(os) + added;
  }

  /** Every closed missing counter charged to nobody is counted as unplaced, and nothing else is. */
  lemma {:induction false} UnplacedRule(os: seq<Outcome>)
    ensures Settle(os).unplaced == |ClosedUncharged(os)|
  {
    if os == [] {
      assert ClosedUncharged(os) == {};
    } else {
      var prior, o := os[..|os| - 1], os[|os| - 1];
      assert os == prior + [o];
      UnplacedRule(prior);
      Tail(prior);
      UnplacedAppend(prior, Settle(prior), o);
    }
  }

  /** Conservation: every finalised counter is a delivery, a charged loss, an unplaced loss or part of the open gap. */
  lemma {:induction false} Conservation(os: seq<Outcome>)
    ensures var l := Settle(os); |l.rx| + |l.lost| + l.unplaced + l.gap == |os|
  {
    if os != [] {
      Conservation(os[..|os| - 1]);
    }
  }
}
