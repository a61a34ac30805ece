/**
  The order in which one attempt dials its relays (pkg/proxy/worker_creds.go and
  headFirst of relay_move.go): canonical order, tiers rotated by the stream's id,
  and the head a move picked put first in place.
 */
module RelayOrder {
  import opened Wrappers

  /** Byte order, as sort.Strings compares. */
  predicate Before(a: string, b: string)
    decreases |a|
  {
    b != [] && (a == [] || a[0] < b[0] || (a[0] == b[0] && Before(a[1..], b[1..])))
  }

  lemma {:induction false} BeforeIsTotal(a: string, b: string)
    ensures Before(a, b) || a == b || Before(b, a)
    ensures !(Before(a, b) && Before(b, a)) && !Before(a, a)
    decreases |a|
  {
    if a != [] && b != [] {
      BeforeIsTotal(a[1..], b[1..]);
      assert a == [a[0]] + a[1..] && b == [b[0]] + b[1..];
    }
    if a != [] { BeforeIsTotal(a[1..], a[1..]); }
  }

  lemma {:induction false} BeforeChains(a: string, b: string, c: string)
    requires Before(a, b) && Before(b, c)
    ensures Before(a, c)
    decreases |a|
  {
    if a != [] && a[0] == b[0] == c[0] { BeforeChains(a[1..], b[1..], c[1..]); }
  }

  ghost predicate Increasing(s: seq<string>) {
    forall i, j :: 0 <= i < j < |s| ==> Before(s[i], s[j])
  }

  function Insert(s: seq<string>, x: string): seq<string>
    decreases |s|
  {
    if s == [] || Before(x, s[0]) then [x] + s
    else if x == s[0] then s
    else [s[0]] + Insert(s[1..], x)
  }

  /** sort.Strings and slices.Compact */
  function Canon(relays: seq<string>): seq<string>
    decreases |relays|
  {
    if relays == [] then [] else Insert(Canon(relays[1..]), relays[0])
  }

  lemma {:induction false} InsertKeeps(s: seq<string>, x: string)
    requires Increasing(s)
    ensures Increasing(Insert(s, x))
    ensures forall y :: y in Insert(s, x) <==> y == x || y in s
    decreases |s|
  {
    if s == [] {
    } else if Before(x, s[0]) {
      forall j | 0 <= j < |s| ensures Before(x, s[j]) {
        if j > 0 { BeforeChains(x, s[0], s[j]); }
      }
    } else if x != s[0] {
      InsertKeeps(s[1..], x);
      BeforeIsTotal(x, s[0]);
      var rest := Insert(s[1..], x);
      forall j | 0 <= j < |rest| ensures Before(s[0], rest[j]) {
        assert rest[j] in rest;
        if rest[j] != x { assert rest[j] in s[1..]; }
      }
      assert forall y :: y in s <==> y == s[0] || y in s[1..];
    }
  }

  lemma {:induction false} CanonSorts(relays: seq<string>)
    ensures Increasing(Canon(relays))
    ensures forall y :: y in Canon(relays) <==> y in relays
    decreases |relays|
  {
    if relays != [] {
      CanonSorts(relays[1..]);
      InsertKeeps(Canon(relays[1..]), relays[0]);
    }
  }

  /** There is one increasing list of any set of names. */
  lemma {:induction false} IncreasingIsOne(s: seq<string>, t: seq<string>)
    requires Increasing(s) && Increasing(t) && forall y :: y in s <==> y in t
    ensures s == t
    decreases |s|
  {
    if s == [] {
      Somebody(t);
    } else {
      assert s[0] in s && s[0] in t;
      assert t[0] in t && t[0] in s;
      BeforeIsTotal(s[0], t[0]);
      var i :| 0 <= i < |t| && t[i] == s[0];
      var j :| 0 <= j < |s| && s[j] == t[0];
      assert s[0] == t[0];
      assert forall y :: y in s[1..] <==> y in s && y != s[0] by { FirstOnce(s); }
      assert forall y :: y in t[1..] <==> y in t && y != t[0] by { FirstOnce(t); }
      IncreasingIsOne(s[1..], t[1..]);
      assert s == [s[0]] + s[1..] && t == [t[0]] + t[1..];
    }
  }

  lemma Somebody(t: seq<string>)
    ensures t == [] || t[0] in t
  {
  }

  lemma FirstOnce(s: seq<string>)
    requires Increasing(s) && s != []
    ensures forall y :: y in s[1..] <==> y in s && y != s[0]
  {
    forall j | 1 <= j < |s| ensures s[j] != s[0] { BeforeIsTotal(s[0], s[j]); }
    assert s == [s[0]] + s[1..];
  }

  /** The same servers stand at the same places whatever order, or how often, a link names them in. */
  lemma CanonIgnoresOrder(a: seq<string>, b: seq<string>)
    requires forall y :: y in a <==> y in b
    ensures Canon(a) == Canon(b)
  {
    CanonSorts(a);
    CanonSorts(b);
    IncreasingIsOne(Canon(a), Canon(b));
  }

  /** The names of s that are in t, in the order of s. */
  function InOrder(s: seq<string>, t: set<string>): (r: seq<string>)
    decreases |s|
  {
    if s == [] then []
    else InOrder(s[..|s| - 1], t) + if s[|s| - 1] in t then [s[|s| - 1]] else []
  }

  lemma {:induction false} InOrderHolds(s: seq<string>, t: set<string>)
    ensures forall y :: y in InOrder(s, t) <==> y in s && y in t
    ensures Increasing(s) ==> Increasing(InOrder(s, t))
    decreases |s|
  {
    if s != [] {
      var prior, last := s[..|s| - 1], s[|s| - 1];
      InOrderHolds(prior, t);
      assert s == prior + [last];
      if Increasing(s) {
        forall i | 0 <= i < |InOrder(prior, t)| ensures Before(InOrder(prior, t)[i], last) {
          assert InOrder(prior, t)[i] in InOrder(prior, t);
        }
      }
    }
  }

  lemma {:induction false} InOrderTwice(s: seq<string>, t: set<string>, u: set<string>)
    ensures InOrder(InOrder(s, t), u) == InOrder(s, t * u)
    decreases |s|
  {
    if s != [] {
      var prior, last := s[..|s| - 1], s[|s| - 1];
      InOrderTwice(prior, t, u);
      var kept := InOrder(prior, t);
      if last in t {
        assert (kept + [last])[..|kept + [last]| - 1] == kept;
        assert InOrder(kept + [last], u) == InOrder(kept, u) + if last in u then [last] else [];
      } else {
        assert InOrder(s, t) == kept;
      }
    }
  }

  // ---- assignRelaysAround ------------------------------------------------------

  /** What one attempt knows of the relays. */
  datatype Around = Around(usable: set<string>, crowded: set<string>, lossy: set<string>)

  /** 0 clean, 1 losing, 2 crowded. */
  function TierOf(w: Around, relay: string): nat {
    if relay in w.crowded then 2 else if relay in w.lossy then 1 else 0
  }

  function OfTier(w: Around, relays: seq<string>, k: nat): set<string> {
    set r | r in relays && r in w.usable && TierOf(w, r) == k
  }

  /** rotateServers at streamSlot */
  function Rotated(tier: seq<string>, id: nat): seq<string> {
    if tier == [] then [] else tier[id % |tier|..] + tier[..id % |tier|]
  }

  /** assignRelaysAround while some relay of the link is usable: the streams spread within each tier. */
  function Spread(w: Around, relays: seq<string>, id: nat): seq<string> {
    var sorted := Canon(relays);
    Rotated(InOrder(sorted, OfTier(w, relays, 0)), id)
      + Rotated(InOrder(sorted, OfTier(w, relays, 1)), id)
      + Rotated(InOrder(sorted, OfTier(w, relays, 2)), id)
  }

  ghost predicate ByTier(w: Around, order: seq<string>) {
    forall i, j :: 0 <= i < j < |order| ==> TierOf(w, order[i]) <= TierOf(w, order[j])
  }

  ghost predicate Once(order: seq<string>) {
    forall i, j :: 0 <= i < j < |order| ==> order[i] != order[j]
  }

  lemma RotatedHolds(tier: seq<string>, id: nat)
    requires Once(tier)
    ensures Once(Rotated(tier, id)) && forall y :: y in Rotated(tier, id) <==> y in tier
    ensures tier != [] ==> Rotated(tier, id) != [] && Rotated(tier, id)[0] == tier[id % |tier|]
  {
    if tier != [] {
      var k := id % |tier|;
      assert tier == tier[..k] + tier[k..];
    }
  }

  lemma TierHolds(w: Around, relays: seq<string>, id: nat, k: nat)
    ensures var tier := Rotated(InOrder(Canon(relays), OfTier(w, relays, k)), id);
            Once(tier) && forall y :: y in tier <==> y in relays && y in w.usable && TierOf(w, y) == k
  {
    var sorted := Canon(relays);
    CanonSorts(relays);
    InOrderHolds(sorted, OfTier(w, relays, k));
    var tier := InOrder(sorted, OfTier(w, relays, k));
    forall i, j | 0 <= i < j < |tier| ensures tier[i] != tier[j] { BeforeIsTotal(tier[i], tier[j]); }
    RotatedHolds(tier, id);
  }

  lemma Joined(w: Around, a: seq<string>, b: seq<string>, k: nat)
    requires Once(a) && ByTier(w, a) && (forall y :: y in a ==> TierOf(w, y) < k)
    requires Once(b) && (forall y :: y in b ==> TierOf(w, y) == k)
    ensures Once(a + b) && ByTier(w, a + b)
  {
    var c := a + b;
    forall i, j | 0 <= i < j < |c| ensures c[i] != c[j] && TierOf(w, c[i]) <= TierOf(w, c[j]) {
      if i < |a| { assert c[i] in a; } else { assert c[i] in b; }
      if j < |a| { assert c[j] in a; } else { assert c[j] in b; }
    }
  }

  /** Every usable relay once, the clean before the losing before the crowded. */
  lemma SpreadHolds(w: Around, relays: seq<string>, id: nat)
    ensures var order := Spread(w, relays, id);
            Once(order) && ByTier(w, order) && forall y :: y in order <==> y in relays && y in w.usable
  {
    var sorted := Canon(relays);
    var a := Rotated(InOrder(sorted, OfTier(w, relays, 0)), id);
    var b := Rotated(InOrder(sorted, OfTier(w, relays, 1)), id);
    var c := Rotated(InOrder(sorted, OfTier(w, relays, 2)), id);
    TierHolds(w, relays, id, 0);
    TierHolds(w, relays, id, 1);
    TierHolds(w, relays, id, 2);
    hide Canon, InOrder, OfTier, Rotated;
    assert ByTier(w, a) by {
      forall i, j | 0 <= i < j < |a| ensures TierOf(w, a[i]) <= TierOf(w, a[j]) { assert a[i] in a && a[j] in a; }
    }
    Joined(w, a, b, 1);
    Joined(w, a + b, c, 2);
    assert forall y :: y in a + b + c <==> y in a || y in b || y in c;
  }

  // ---- outageOrder ----------------------------------------------------------------

  /** What the data plane showed of the servers: the last round trip carried, and the last handshake failed. */
  datatype Health = Health(lastGood: map<string, int>, demotedAt: map<string, int>)

  predicate Demoted(h: Health, relay: string) {
    relay in h.demotedAt && (relay in h.lastGood ==> h.demotedAt[relay] > h.lastGood[relay])
  }

  /** The data plane works as far as is known: what it last showed was a round trip. */
  predicate Proven(h: Health, relay: string) { relay in h.lastGood && !Demoted(h, relay) }

  /** a ranks before b: not demoted, or carried later. */
  predicate Outranks(h: Health, a: string, b: string) {
    if Demoted(h, a) != Demoted(h, b) then Demoted(h, b)
    else a in h.lastGood && (b in h.lastGood ==> h.lastGood[a] > h.lastGood[b])
  }

  /** slices.SortStableFunc, as an insertion from the left. */
  function InsertRanked(h: Health, s: seq<string>, x: string): seq<string>
    decreases |s|
  {
    if s == [] || !Outranks(h, x, s[|s| - 1]) then s + [x]
    else InsertRanked(h, s[..|s| - 1], x) + [s[|s| - 1]]
  }

  function Ranked(h: Health, s: seq<string>): seq<string>
    decreases |s|
  {
    if s == [] then [] else InsertRanked(h, Ranked(h, s[..|s| - 1]), s[|s| - 1])
  }

  /** How many relays lead the order that are proven. */
  function Leading(h: Health, order: seq<string>): (n: nat)
    ensures n <= |order| && (forall k :: 0 <= k < n ==> Proven(h, order[k]))
    ensures n < |order| ==> !Proven(h, order[n])
    decreases |order|
  {
    if order == [] || !Proven(h, order[0]) then 0 else 1 + Leading(h, order[1..])
  }

  /**
    outageOrder: the proven lead, spread over the streams, the crowded of them
    behind the rest; then the order stands. With fewer than two proven, or with
    all or none of them crowded, the code's shortcuts come to the same.
   */
  function Outage(w: Around, h: Health, relays: seq<string>, id: nat): seq<string> {
    var out := Ranked(h, Canon(relays));
    var n := Leading(h, out);
    Rotated(InOrder(out[..n], set r | r in relays && r !in w.crowded), id)
      + Rotated(InOrder(out[..n], set r | r in relays && r in w.crowded), id) + out[n..]
  }

  /** assignRelaysAround */
  function Assigned(w: Around, h: Health, relays: seq<string>, id: nat): seq<string> {
    if exists r | r in relays :: r in w.usable then Spread(w, relays, id) else Outage(w, h, relays, id)
  }

  /** 0 proven, 1 proven and crowded, 2 unproven, 3 demoted. */
  function Standing(w: Around, h: Health, relay: string): nat {
    if Proven(h, relay) then (if relay in w.crowded then 1 else 0)
    else if Demoted(h, relay) then 3 else 2
  }

  ghost predicate ByStanding(w: Around, h: Health, order: seq<string>) {
    forall i, j :: 0 <= i < j < |order| ==> Standing(w, h, order[i]) <= Standing(w, h, order[j])
  }

  /** The order is by rank, and canonical among equals. */
  ghost predicate InRank(h: Health, s: seq<string>) {
    forall i, j :: 0 <= i < j < |s| ==> Outranks(h, s[i], s[j]) || (!Outranks(h, s[j], s[i]) && Before(s[i], s[j]))
  }

  lemma {:induction false} InsertRankedHolds(h: Health, s: seq<string>, x: string)
    requires InRank(h, s) && forall y :: y in s ==> Before(y, x)
    ensures InRank(h, InsertRanked(h, s, x)) && forall y :: y in InsertRanked(h, s, x) <==> y == x || y in s
    decreases |s|
  {
    if s == [] || !Outranks(h, x, s[|s| - 1]) {
      forall i | 0 <= i < |s| ensures Outranks(h, s[i], x) || (!Outranks(h, x, s[i]) && Before(s[i], x)) {
        assert s[i] in s;
      }
    } else {
      var prior, last := s[..|s| - 1], s[|s| - 1];
      assert s == prior + [last];
      InsertRankedHolds(h, prior, x);
      var put := InsertRanked(h, prior, x);
      forall i | 0 <= i < |put| ensures Outranks(h, put[i], last) || (!Outranks(h, last, put[i]) && Before(put[i], last)) {
        assert put[i] in put;
        if put[i] != x {
          var k :| 0 <= k < |prior| && prior[k] == put[i];
          assert s[k] == put[i];
        }
      }
    }
  }

  lemma {:induction false} RankedHolds(h: Health, s: seq<string>)
    requires Increasing(s)
    ensures InRank(h, Ranked(h, s)) && forall y :: y in Ranked(h, s) <==> y in s
    decreases |s|
  {
    if s != [] {
      var prior, last := s[..|s| - 1], s[|s| - 1];
      assert s == prior + [last];
      RankedHolds(h, prior);
      InsertRankedHolds(h, Ranked(h, prior), last);
    }
  }

  lemma RankOnce(h: Health, s: seq<string>)
    requires InRank(h, s)
    ensures Once(s)
  {
    forall i, j | 0 <= i < j < |s| ensures s[i] != s[j] { BeforeIsTotal(s[i], s[j]); }
  }

  lemma {:induction false} InOrderOnce(s: seq<string>, t: set<string>)
    requires Once(s)
    ensures Once(InOrder(s, t))
    decreases |s|
  {
    if s != [] {
      var prior, last := s[..|s| - 1], s[|s| - 1];
      assert s == prior + [last];
      InOrderOnce(prior, t);
      InOrderHolds(prior, t);
      forall i | 0 <= i < |InOrder(prior, t)| ensures InOrder(prior, t)[i] != last {
        assert InOrder(prior, t)[i] in prior;
      }
    }
  }

  /** The ranked order is of the proven, then of the unproven, then of the demoted. */
  lemma RankedStands(h: Health, out: seq<string>, i: nat, j: nat)
    requires InRank(h, out) && i < j < |out|
    ensures Proven(h, out[j]) ==> Proven(h, out[i])
    ensures Demoted(h, out[i]) ==> Demoted(h, out[j])
  {
  }

  /** Lists in their standing, each at most where the next begins, make one in its standing. */
  lemma Stacked(w: Around, h: Health, a: seq<string>, b: seq<string>, k: nat)
    requires Once(a) && ByStanding(w, h, a) && (forall y :: y in a ==> Standing(w, h, y) < k)
    requires Once(b) && ByStanding(w, h, b) && (forall y :: y in b ==> Standing(w, h, y) >= k)
    ensures Once(a + b) && ByStanding(w, h, a + b)
  {
    var c := a + b;
    hide Standing;
    forall i, j | 0 <= i < j < |c| ensures c[i] != c[j] && Standing(w, h, c[i]) <= Standing(w, h, c[j]) {
      if i < |a| { assert c[i] in a; } else { assert c[i] in b; }
      if j < |a| { assert c[j] in a; } else { assert c[j] in b; }
    }
  }

  /** One part of the proven, spread: nobody lost, nobody twice, all of one standing. */
  lemma PartHolds(w: Around, h: Health, proven: seq<string>, part: set<string>, id: nat, k: nat)
    requires Once(proven) && forall y :: y in proven && y in part ==> Standing(w, h, y) == k
    ensures var turned := Rotated(InOrder(proven, part), id);
            && Once(turned) && ByStanding(w, h, turned)
            && (forall y :: y in turned <==> y in proven && y in part)
            && (forall y :: y in turned ==> Standing(w, h, y) == k)
  {
    InOrderOnce(proven, part);
    InOrderHolds(proven, part);
    RotatedHolds(InOrder(proven, part), id);
    var turned := Rotated(InOrder(proven, part), id);
    hide Standing, Rotated, InOrder;
    forall i, j | 0 <= i < j < |turned| ensures Standing(w, h, turned[i]) <= Standing(w, h, turned[j]) {
      assert turned[i] in turned && turned[j] in turned;
    }
  }

  /** Behind the leading proven the order stands unproven before demoted. */
  lemma RestStands(w: Around, h: Health, out: seq<string>, n: nat, i: nat, j: nat)
    requires InRank(h, out) && n == Leading(h, out) && n <= i < |out| && i < j
    ensures Standing(w, h, out[i]) >= 2
    ensures j < |out| ==> Standing(w, h, out[i]) <= Standing(w, h, out[j])
  {
    if n < i { RankedStands(h, out, n, i); }
    if j < |out| { RankedStands(h, out, i, j); }
  }

  lemma OnceParts(s: seq<string>, n: nat)
    requires Once(s) && n <= |s|
    ensures Once(s[..n]) && Once(s[n..]) && forall y :: y in s <==> y in s[..n] || y in s[n..]
  {
    assert s == s[..n] + s[n..];
  }

  /** Of a ranked order the proven are the leading run. */
  lemma ProvenLead(w: Around, h: Health, out: seq<string>)
    requires InRank(h, out)
    ensures var n := Leading(h, out);
            && Once(out[..n]) && (forall y :: y in out[..n] ==> Proven(h, y))
            && Once(out[n..]) && ByStanding(w, h, out[n..]) && (forall y :: y in out[n..] ==> Standing(w, h, y) >= 2)
            && (forall y :: y in out <==> y in out[..n] || y in out[n..])
  {
    var n := Leading(h, out);
    RankOnce(h, out);
    OnceParts(out, n);
    hide *;
    var rest := out[n..];
    assert ByStanding(w, h, rest) by { RestByStanding(w, h, out, n); }
    forall y | y in rest ensures Standing(w, h, y) >= 2 {
      var i :| 0 <= i < |rest| && rest[i] == y;
      RestStands(w, h, out, n, n + i, |out|);
    }
  }

  lemma RestByStanding(w: Around, h: Health, out: seq<string>, n: nat)
    requires InRank(h, out) && n == Leading(h, out)
    ensures ByStanding(w, h, out[n..])
  {
    hide InRank, Standing;
    var rest := out[n..];
    forall i, j | 0 <= i < j < |rest| ensures Standing(w, h, rest[i]) <= Standing(w, h, rest[j]) {
      RestStands(w, h, out, n, n + i, n + j);
    }
  }

  /** The proven spread in two parts, those not crowded first. */
  lemma PartsHold(w: Around, h: Health, proven: seq<string>, relays: seq<string>, id: nat)
    requires Once(proven) && forall y :: y in proven ==> Proven(h, y) && y in relays
    ensures var a := Rotated(InOrder(proven, set r | r in relays && r !in w.crowded), id);
            var b := Rotated(InOrder(proven, set r | r in relays && r in w.crowded), id);
            && Once(a + b) && ByStanding(w, h, a + b) && (forall y :: y in a + b <==> y in proven)
            && (forall y :: y in a + b ==> Standing(w, h, y) < 2)
  {
    var free, taken := set r | r in relays && r !in w.crowded, set r | r in relays && r in w.crowded;
    PartHolds(w, h, proven, free, id, 0);
    PartHolds(w, h, proven, taken, id, 1);
    var a, b := Rotated(InOrder(proven, free), id), Rotated(InOrder(proven, taken), id);
    hide Rotated, InOrder, Standing;
    Stacked(w, h, a, b, 1);
    assert forall y :: y in a + b <==> y in a || y in b;
  }

  lemma OutageHolds(w: Around, h: Health, relays: seq<string>, id: nat)
    ensures var order := Outage(w, h, relays, id);
            Once(order) && ByStanding(w, h, order) && forall y :: y in order <==> y in relays
  {
    hide InOrder, Rotated, Standing, InRank, ByStanding, Once, Proven, Increasing;
    var out := Ranked(h, Canon(relays));
    CanonSorts(relays);
    RankedHolds(h, Canon(relays));
    ProvenLead(w, h, out);
    var n := Leading(h, out);
    PartsHold(w, h, out[..n], relays, id);
    var a := Rotated(InOrder(out[..n], set r | r in relays && r !in w.crowded), id);
    var b := Rotated(InOrder(out[..n], set r | r in relays && r in w.crowded), id);
    Stacked(w, h, a + b, out[n..], 2);
    assert Outage(w, h, relays, id) == a + b + out[n..];
    assert forall y :: y in a + b + out[n..] <==> y in a + b || y in out[n..];
  }

  /**
    The attempt dials every usable relay once, the clean before the losing
    before the crowded. With none usable it dials every relay once, a relay that
    carried and has not failed since before any other, and a demoted one last.
   */
  lemma AssignedHolds(w: Around, h: Health, relays: seq<string>, id: nat)
    ensures var order, any := Assigned(w, h, relays, id), exists r | r in relays :: r in w.usable;
            && Once(order) && (any ==> ByTier(w, order)) && (!any ==> ByStanding(w, h, order))
            && forall y :: y in order <==> y in relays && (any ==> y in w.usable)
  {
    SpreadHolds(w, relays, id);
    OutageHolds(w, h, relays, id);
    hide Spread, Outage, ByTier, ByStanding, Once;
  }

  /** part is tier from the stream's place in it on, round. */
  ghost predicate Turned(part: seq<string>, tier: seq<string>, id: nat) {
    |part| == |tier| && forall m {:trigger part[m]} :: 0 <= m < |tier| ==> part[m] == tier[(id + m) % |tier|]
  }

  /** The order is of the three lists, one after another, each turned to the stream's place. */
  ghost predicate TurnedEach(order: seq<string>, a: seq<string>, b: seq<string>, c: seq<string>, id: nat) {
    && |order| == |a| + |b| + |c|
    && Turned(order[..|a|], a, id) && Turned(order[|a|..|a| + |b|], b, id) && Turned(order[|a| + |b|..], c, id)
  }

  lemma RotatedAt(tier: seq<string>, id: nat, m: nat)
    requires m < |tier|
    ensures |Rotated(tier, id)| == |tier| && Rotated(tier, id)[m] == tier[(id + m) % |tier|]
  {
    var n, k := |tier|, id % |tier|;
    Modulo(id, m, n);
  }

  lemma Modulo(id: nat, m: nat, n: nat)
    requires m < n
    ensures (id + m) % n == if id % n + m < n then id % n + m else id % n + m - n
  {
    var q := id / n;
    assert id + m == n * q + (id % n + m);
    if id % n + m < n { Divides(id + m, n, q, id % n + m); } else { Divides(id + m, n, q + 1, id % n + m - n); }
  }

  lemma Divides(x: nat, n: nat, q: nat, r: nat)
    requires r < n && x == n * q + r
    ensures x % n == r
  {
    InOrderOf(x / n + 1, q, n);
    InOrderOf(q + 1, x / n, n);
  }

  lemma InOrderOf(a: int, b: int, n: nat)
    ensures a <= b ==> n * a <= n * b
  {
  }

  lemma RotatedTurns(tier: seq<string>, id: nat)
    ensures Turned(Rotated(tier, id), tier, id)
  {
    RotatedLength(tier, id);
    hide Rotated;
    forall m | 0 <= m < |tier| ensures Rotated(tier, id)[m] == tier[(id + m) % |tier|] { RotatedAt(tier, id, m); }
  }

  lemma ThreeTurned(a: seq<string>, b: seq<string>, c: seq<string>, id: nat)
    ensures TurnedEach(Rotated(a, id) + Rotated(b, id) + Rotated(c, id), a, b, c, id)
  {
    RotatedTurns(a, id);
    RotatedTurns(b, id);
    RotatedTurns(c, id);
    RotatedLength(a, id);
    RotatedLength(b, id);
    RotatedLength(c, id);
    var ra, rb, rc := Rotated(a, id), Rotated(b, id), Rotated(c, id);
    hide Rotated, Turned;
    var order := ra + rb + rc;
    assert order[..|a|] == ra && order[|a|..|a| + |b|] == rb && order[|a| + |b|..] == rc;
  }

  lemma RotatedLength(tier: seq<string>, id: nat)
    ensures |Rotated(tier, id)| == |tier|
  {
  }

  /**
    Each tier is dialed from the stream's place on, round: the m-th dialed of a
    tier of n, in canonical order, is its (id + m) mod n-th.
   */
  lemma TiersAreTurned(w: Around, h: Health, relays: seq<string>, id: nat)
    requires exists r | r in relays :: r in w.usable
    ensures var sorted := Canon(relays);
            TurnedEach(Assigned(w, h, relays, id), InOrder(sorted, OfTier(w, relays, 0)),
                       InOrder(sorted, OfTier(w, relays, 1)), InOrder(sorted, OfTier(w, relays, 2)), id)
  {
    var sorted := Canon(relays);
    hide Canon, InOrder, OfTier;
    ThreeTurned(InOrder(sorted, OfTier(w, relays, 0)), InOrder(sorted, OfTier(w, relays, 1)),
                InOrder(sorted, OfTier(w, relays, 2)), id);
  }

  /** So as many streams in a row as there are clean relays each dial another one first. */
  lemma HeadsAreSpread(w: Around, h: Health, relays: seq<string>, x: nat, y: nat)
    requires exists r | r in relays :: r in w.usable && TierOf(w, r) == 0
    requires x < y < x + |InOrder(Canon(relays), OfTier(w, relays, 0))|
    ensures Assigned(w, h, relays, x) != [] && Assigned(w, h, relays, y) != []
    ensures Assigned(w, h, relays, x)[0] != Assigned(w, h, relays, y)[0]
  {
    var clean := InOrder(Canon(relays), OfTier(w, relays, 0));
    TiersAreTurned(w, h, relays, x);
    TiersAreTurned(w, h, relays, y);
    assert Assigned(w, h, relays, x)[..|clean|][0] == clean[x % |clean|];
    assert Assigned(w, h, relays, y)[..|clean|][0] == clean[y % |clean|];
    CanonSorts(relays);
    InOrderHolds(Canon(relays), OfTier(w, relays, 0));
    hide Canon, InOrder, Assigned, OfTier, TurnedEach;
    Modulo(x, y - x, |clean|);
    IncreasingApart(clean, x % |clean|, y % |clean|);
  }

  lemma IncreasingApart(s: seq<string>, i: nat, j: nat)
    requires Increasing(s) && i < |s| && j < |s| && i != j
    ensures s[i] != s[j]
  {
    BeforeIsTotal(s[i], s[j]);
  }

  /** In an outage the proven are spread the same way, and stream 0 of a link with no relay crowded keeps the ranked order. */
  lemma OutageIsTurned(w: Around, h: Health, relays: seq<string>, id: nat)
    ensures var out := Ranked(h, Canon(relays));
            var n := Leading(h, out);
            InRank(h, out) && n <= |Outage(w, h, relays, id)|
            && TurnedEach(Outage(w, h, relays, id)[..n], InOrder(out[..n], set r | r in relays && r !in w.crowded),
                          InOrder(out[..n], set r | r in relays && r in w.crowded), [], id)
            && Outage(w, h, relays, id)[n..] == out[n..]
  {
    var out := Ranked(h, Canon(relays));
    var n := Leading(h, out);
    CanonSorts(relays);
    RankedHolds(h, Canon(relays));
    ProvenLead(w, h, out);
    var a := InOrder(out[..n], set r | r in relays && r !in w.crowded);
    var b := InOrder(out[..n], set r | r in relays && r in w.crowded);
    InOrderParts(out[..n], set r | r in relays && r !in w.crowded, set r | r in relays && r in w.crowded);
    ThreeTurned(a, b, [], id);
    RotatedLength(a, id);
    RotatedLength(b, id);
    hide Ranked, InRank, InOrder, Canon, Leading, Once, ByStanding, Standing, Proven, TurnedEach;
    var turned := Rotated(a, id) + Rotated(b, id) + Rotated([], id);
    assert turned == Rotated(a, id) + Rotated(b, id);
    hide Rotated;
    assert Outage(w, h, relays, id) == turned + out[n..];
  }

  lemma {:induction false} InOrderParts(s: seq<string>, t: set<string>, u: set<string>)
    requires t !! u && forall y :: y in s ==> y in t || y in u
    ensures |InOrder(s, t)| + |InOrder(s, u)| == |s|
    decreases |s|
  {
    if s != [] {
      assert s == s[..|s| - 1] + [s[|s| - 1]];
      InOrderParts(s[..|s| - 1], t, u);
    }
  }

  /** In so many words: no losing relay is dialed before a clean one, and no crowded one before any other. */
  lemma TiersInWords(w: Around, h: Health, relays: seq<string>, id: nat, i: nat, j: nat)
    requires i < j < |Assigned(w, h, relays, id)| && exists r | r in relays :: r in w.usable
    ensures var first, second := Assigned(w, h, relays, id)[i], Assigned(w, h, relays, id)[j];
            && (first in w.crowded ==> second in w.crowded)
            && (first in w.lossy && second !in w.crowded ==> second in w.lossy)
  {
    AssignedHolds(w, h, relays, id);
    hide Assigned, Once;
  }

  /** And in an outage: none before a proven one but those, a crowded one last of them, and none behind a demoted one but those. */
  lemma OutageInWords(w: Around, h: Health, relays: seq<string>, id: nat, i: nat, j: nat)
    requires i < j < |Assigned(w, h, relays, id)| && !exists r | r in relays :: r in w.usable
    ensures var first, second := Assigned(w, h, relays, id)[i], Assigned(w, h, relays, id)[j];
            && (Proven(h, second) ==> Proven(h, first) && (first in w.crowded ==> second in w.crowded))
            && (Demoted(h, first) ==> Demoted(h, second))
  {
    AssignedHolds(w, h, relays, id);
    hide Assigned, Once;
  }

  // ---- headFirst ------------------------------------------------------------------

  function Index(order: seq<string>, head: string): (i: int)
    ensures -1 <= i < |order|
    ensures i == -1 <==> head !in order
    ensures i >= 0 ==> order[i] == head && head !in order[..i]
    decreases |order|
  {
    if order == [] then -1
    else if order[0] == head then 0
    else
      var i := Index(order[1..], head);
      if i < 0 then -1 else assert order[..i + 1] == [order[0]] + order[1..][..i]; i + 1
  }

  /** The head may lead: it is usable, and crowded and losing as the relay in front is. */
  predicate MayLead(w: Around, order: seq<string>, head: string) {
    && order != [] && head in w.usable
    && (head in w.crowded <==> order[0] in w.crowded) && (head in w.lossy <==> order[0] in w.lossy)
  }

  /** What headFirst leaves: head in front, everyone else in the order they had. */
  function Led(w: Around, order: seq<string>, head: string): seq<string> {
    var i := Index(order, head);
    if MayLead(w, order, head) && i > 0 then [head] + order[..i] + order[i + 1..] else order
  }

  /** headFirst, shifting the slice in place; "" is no head. */
  method HeadFirst(order: array<string>, head: string, w: Around)
    modifies order
    ensures order[..] == if head == "" then old(order[..]) else Led(w, old(order[..]), head)
  {
    if head == "" || order.Length == 0 || head !in w.usable
      || (head in w.crowded) != (order[0] in w.crowded) || (head in w.lossy) != (order[0] in w.lossy)
    {
      return;
    }
    var i := Find(order, head);
    if i <= 0 { return; }
    ShiftUp(order, i);
    order[0] := head;
    assert order[..] == [head] + old(order[..])[..i] + old(order[..])[i + 1..];
  }

  /** copy(order[1:i+1], order[:i]) */
  method ShiftUp(order: array<string>, i: nat)
    requires 0 < i < order.Length
    modifies order
    ensures order[..] == [old(order[0])] + old(order[..])[..i] + old(order[..])[i + 1..]
  {
    var j := i;
    while j > 0
      invariant 0 <= j <= i
      invariant forall k :: 0 <= k <= j ==> order[k] == old(order[k])
      invariant forall k :: j < k <= i ==> order[k] == old(order[k - 1])
      invariant forall k :: i < k < order.Length ==> order[k] == old(order[k])
    {
      order[j] := order[j - 1];
      j := j - 1;
    }
  }

  /** slices.Index */
  method Find(order: array<string>, head: string) returns (i: int)
    ensures i == Index(order[..], head)
  {
    i := 0;
    while i < order.Length
      invariant 0 <= i <= order.Length
      invariant head !in order[..i]
    {
      if order[i] == head { FirstIs(order[..], head, i); return; }
      i := i + 1;
    }
    assert order[..] == order[..i];
    return -1;
  }

  lemma FirstIs(order: seq<string>, head: string, i: nat)
    requires i < |order| && order[i] == head && head !in order[..i]
    ensures i == Index(order, head)
  {
    var k := Index(order, head);
    forall m | 0 <= m < i ensures order[m] != head { assert order[..i][m] in order[..i]; }
    forall m | 0 <= m < k ensures order[m] != head { assert order[..k][m] in order[..k]; }
  }

  /** led is order with its i-th relay brought to the front. */
  ghost predicate Fronted(order: seq<string>, led: seq<string>, i: nat) {
    && i < |order| == |led| && led[0] == order[i]
    && (forall k {:trigger order[k]} :: 0 <= k < i ==> led[k + 1] == order[k])
    && (forall k {:trigger led[k]} :: i < k < |led| ==> led[k] == order[k])
  }

  /** Where the k-th relay of the order goes, and where the k-th of what is led comes from. */
  function Goes(i: nat, k: nat): nat { if k == i then 0 else if k < i then k + 1 else k }
  function Comes(i: nat, k: nat): nat { if k == 0 then i else if k <= i then k - 1 else k }

  lemma LedComes(order: seq<string>, led: seq<string>, i: nat)
    requires Fronted(order, led, i)
    ensures forall k :: 0 <= k < |led| ==> led[k] == order[Comes(i, k)]
    ensures forall k :: 0 <= k < |led| ==> led[Goes(i, k)] == order[k]
  {
    forall k | 0 <= k < |led| ensures led[k] == order[Comes(i, k)] {
      if 0 < k <= i { assert order[k - 1] == order[Comes(i, k)]; }
    }
  }

  /** x comes somewhere before y. */
  ghost predicate Ahead(s: seq<string>, x: string, y: string) {
    exists a, b :: 0 <= a < b < |s| && s[a] == x && s[b] == y
  }

  /** Nobody but the head changes places with anybody. */
  lemma FrontedAhead(order: seq<string>, led: seq<string>, i: nat, x: string, y: string)
    requires Fronted(order, led, i) && x != order[i] && y != order[i]
    ensures Ahead(led, x, y) <==> Ahead(order, x, y)
  {
    StaysAhead(order, led, i, x, y);
    WasAhead(order, led, i, x, y);
  }

  lemma StaysAhead(order: seq<string>, led: seq<string>, i: nat, x: string, y: string)
    requires Fronted(order, led, i) && x != order[i] && y != order[i]
    ensures Ahead(order, x, y) ==> Ahead(led, x, y)
  {
    LedComes(order, led, i);
    hide Fronted;
    if Ahead(order, x, y) {
      var a, b :| 0 <= a < b < |order| && order[a] == x && order[b] == y;
      AheadAt(led, Goes(i, a), Goes(i, b));
    }
  }

  lemma WasAhead(order: seq<string>, led: seq<string>, i: nat, x: string, y: string)
    requires Fronted(order, led, i) && x != order[i] && y != order[i]
    ensures Ahead(led, x, y) ==> Ahead(order, x, y)
  {
    LedComes(order, led, i);
    hide Fronted;
    if Ahead(led, x, y) {
      var a, b :| 0 <= a < b < |led| && led[a] == x && led[b] == y;
      AheadAt(order, Comes(i, a), Comes(i, b));
    }
  }

  lemma AheadAt(s: seq<string>, a: nat, b: nat)
    requires a < b < |s|
    ensures Ahead(s, s[a], s[b])
  {
  }

  lemma FrontedKeeps(w: Around, order: seq<string>, led: seq<string>, i: nat)
    requires Fronted(order, led, i) && Once(order) && ByTier(w, order) && TierOf(w, order[i]) == TierOf(w, order[0])
    ensures Once(led) && ByTier(w, led)
  {
    LedComes(order, led, i);
    hide Fronted;
    forall j, k | 0 <= j < k < |led| ensures led[j] != led[k] && TierOf(w, led[j]) <= TierOf(w, led[k]) {
      assert led[j] == order[Comes(i, j)] && led[k] == order[Comes(i, k)];
      assert TierOf(w, order[0]) <= TierOf(w, order[Comes(i, k)]);
    }
  }

  /** The rotation loses and doubles nobody, keeps the tiers in order, and keeps everyone else's order. */
  lemma LedKeeps(w: Around, order: seq<string>, head: string)
    requires Once(order) && ByTier(w, order)
    ensures var led := Led(w, order, head);
            && multiset(led) == multiset(order) && Once(led) && ByTier(w, led)
            && (forall x, y :: x != head && y != head ==> (Ahead(led, x, y) <==> Ahead(order, x, y)))
  {
    var i := Index(order, head);
    if MayLead(w, order, head) && i > 0 {
      var led := Led(w, order, head);
      LedMultiset(order, i);
      assert Fronted(order, led, i);
      hide Fronted, Ahead;
      FrontedKeeps(w, order, led, i);
      forall x, y | x != head && y != head ensures Ahead(led, x, y) <==> Ahead(order, x, y) {
        FrontedAhead(order, led, i, x, y);
      }
    }
  }

  lemma LedMultiset(order: seq<string>, i: nat)
    requires i < |order|
    ensures multiset([order[i]] + order[..i] + order[i + 1..]) == multiset(order)
  {
    assert order == order[..i] + [order[i]] + order[i + 1..];
  }

  /** The relay in front when every usable one is crowded. */
  function FirstCrowded(w: Around, relays: seq<string>, id: nat): Option<string> {
    var tier := InOrder(Canon(relays), OfTier(w, relays, 2));
    if tier == [] then None else Some(tier[id % |tier|])
  }

  lemma CrowdedFirst(w: Around, relays: seq<string>, id: nat)
    requires Spread(w, relays, id) != [] && forall y :: y in relays && y in w.usable ==> y in w.crowded
    ensures FirstCrowded(w, relays, id) == Some(Spread(w, relays, id)[0])
  {
    var tier := InOrder(Canon(relays), OfTier(w, relays, 2));
    TierHolds(w, relays, id, 0);
    TierHolds(w, relays, id, 1);
    Somebody(Rotated(InOrder(Canon(relays), OfTier(w, relays, 0)), id));
    Somebody(Rotated(InOrder(Canon(relays), OfTier(w, relays, 1)), id));
    CanonSorts(relays);
    InOrderHolds(Canon(relays), OfTier(w, relays, 2));
    forall i, j | 0 <= i < j < |tier| ensures tier[i] != tier[j] { BeforeIsTotal(tier[i], tier[j]); }
    RotatedHolds(tier, id);
  }

  lemma LeadsOrder(w: Around, order: seq<string>, head: string)
    requires ByTier(w, order) && head in order && head in w.usable
    ensures Led(w, order, head)[0] == head <==>
            && (forall x :: x in order ==> TierOf(w, head) <= TierOf(w, x))
            && (head in w.crowded ==> (head in w.lossy <==> order[0] in w.lossy))
  {
    forall x | x in order ensures TierOf(w, order[0]) <= TierOf(w, x) {
      var j :| 0 <= j < |order| && order[j] == x;
    }
    assert order[0] in order;
  }

  /** head is losing as the relay in front of the crowded is, or not. */
  predicate LosesAsFirst(w: Around, relays: seq<string>, id: nat, head: string) {
    var first := FirstCrowded(w, relays, id);
    first.Some? && (head in w.lossy <==> first.value in w.lossy)
  }

  /**
    A usable relay put at the head of an attempt's order leads it if and only if
    no usable relay is of a better tier and, with all of them crowded, it is
    losing as the relay in front is or not.
   */
  lemma LeadsWhen(w: Around, h: Health, relays: seq<string>, id: nat, head: string)
    requires head in relays && head in w.usable
    ensures var order := Assigned(w, h, relays, id);
            && order != []
            && (Led(w, order, head)[0] == head <==>
                && (forall x :: x in relays && x in w.usable ==> TierOf(w, head) <= TierOf(w, x))
                && (head in w.crowded ==> LosesAsFirst(w, relays, id, head)))
  {
    var order := Assigned(w, h, relays, id);
    SpreadHolds(w, relays, id);
    assert order == Spread(w, relays, id);
    if forall x :: x in relays && x in w.usable ==> x in w.crowded { CrowdedFirst(w, relays, id); }
    hide Assigned, Spread, FirstCrowded, Led, ByTier, Once;
    LeadsOrder(w, order, head);
  }
}
