/**
 Choosing a backend.  Selection works on the views of a snapshot's list, in list order;
 a backend is named by its position in that list.
 */
module Scheduler {
  import opened Wrappers
  import opened Ewma
  import opened Backend
  import opened PrefixIndex
  import opened Rotation

  const PREFIX_MATCH_WEIGHT: real := 150.0
  const INFLIGHT_WEIGHT: real := 10.0
  const LATENCY_WEIGHT: real := 1.5
  const ERROR_WEIGHT: real := 50.0

  function Score(v: BackendView, warmth: real): real {
    PREFIX_MATCH_WEIGHT * warmth
    - INFLIGHT_WEIGHT * v.inflight as real
    - LATENCY_WEIGHT * v.latency
    - ERROR_WEIGHT * v.errorRate
  }

  function Ids(vs: seq<BackendView>): seq<string> {
    seq(|vs|, i requires 0 <= i < |vs| => vs[i].endpoint.id)
  }

  /******* Round robin *******/

  /** The first healthy position at offset `i` or later of a rotation from `r`. */
  function PickFrom(vs: seq<BackendView>, r: nat, i: nat): Option<nat>
    requires r < |vs|
    decreases |vs| - i
  {
    if i >= |vs| then None
    else if vs[Slot(r, i, |vs|)].healthy then Some(Slot(r, i, |vs|))
    else PickFrom(vs, r, i + 1)
  }

  function Pick(vs: seq<BackendView>, counter: nat): Option<nat> {
    if vs == [] then None
    else
      NextStart(counter, 0, |vs|);
      PickFrom(vs, Start(counter, |vs|), 0)
  }

  ghost predicate FirstHealthy(vs: seq<BackendView>, r: nat, i: nat)
    requires r < |vs| && i < |vs|
  {
    && vs[Slot(r, i, |vs|)].healthy
    && forall j | 0 <= j < i :: !vs[Slot(r, j, |vs|)].healthy
  }

  ghost predicate NobodyHealthy(vs: seq<BackendView>) {
    forall p | 0 <= p < |vs| :: !vs[p].healthy
  }

  lemma {:induction false} PickFromIsFirst(vs: seq<BackendView>, r: nat, i: nat)
    requires r < |vs| && i <= |vs| && forall j | 0 <= j < i :: !vs[Slot(r, j, |vs|)].healthy
    ensures match PickFrom(vs, r, i)
            case None => NobodyHealthy(vs)
            case Some(p) => exists k | i <= k < |vs| :: FirstHealthy(vs, r, k) && p == Slot(r, k, |vs|)
    decreases |vs| - i
  {
    if i == |vs| {
      forall p | 0 <= p < |vs| ensures !vs[p].healthy {
        assert Slot(r, Back(p, r, |vs|), |vs|) == p;
      }
    } else if vs[Slot(r, i, |vs|)].healthy {
      assert FirstHealthy(vs, r, i);
    } else {
      PickFromIsFirst(vs, r, i + 1);
    }
  }

  /** Round robin picks the cyclically first healthy position, and fails exactly when no
      listed backend is healthy. */
  lemma PickIsFirst(vs: seq<BackendView>, counter: nat)
    ensures match Pick(vs, counter)
            case None => NobodyHealthy(vs)
            case Some(p) =>
              && p < |vs| && vs[p].healthy
              && (exists k | 0 <= k < |vs| ::
                    FirstHealthy(vs, Start(counter, |vs|), k) && p == Slot(Start(counter, |vs|), k, |vs|))
  {
    if vs != [] {
      PickFromIsFirst(vs, Start(counter, |vs|), 0);
    }
  }

  /******* Fairness *******/

  function GapFrom(vs: seq<BackendView>, p: nat, d: nat): nat
    requires p < |vs| && 0 < d
    decreases |vs| - d
  {
    if d < |vs| && !vs[Back(p, d, |vs|)].healthy then 1 + GapFrom(vs, p, d + 1) else 0
  }

  /** How many consecutive unhealthy positions come cyclically just before `p`. */
  function Gap(vs: seq<BackendView>, p: nat): nat
    requires p < |vs|
  {
    GapFrom(vs, p, 1)
  }

  lemma {:induction false} GapFromMeans(vs: seq<BackendView>, p: nat, d: nat)
    requires p < |vs| && 0 < d <= |vs|
    ensures var g := d + GapFrom(vs, p, d);
            && g <= |vs|
            && (forall x | d <= x < g :: !vs[Back(p, x, |vs|)].healthy)
            && (g < |vs| ==> vs[Back(p, g, |vs|)].healthy)
    decreases |vs| - d
  {
    if d < |vs| && !vs[Back(p, d, |vs|)].healthy {
      GapFromMeans(vs, p, d + 1);
    }
  }

  /** `Back` counts positions backwards around the list. */
  lemma BackIsRemainder(p: nat, x: nat, n: nat)
    requires p < n && x <= n
    ensures Back(p, x, n) == (p + n - x) % n
  {
    if x <= p {
      ModUnique(p + n - x, n, 1, p - x);
    } else {
      ModUnique(p + n - x, n, 0, p + n - x);
    }
  }

  /** Just before `p` come as many unhealthy positions as its gap says, and then a healthy
      one, which may be `p` itself. */
  lemma GapMeans(vs: seq<BackendView>, p: nat)
    requires p < |vs| && vs[p].healthy
    ensures Gap(vs, p) < |vs|
    ensures forall x | 1 <= x <= Gap(vs, p) :: !vs[Back(p, x, |vs|)].healthy
    ensures vs[Back(p, Gap(vs, p) + 1, |vs|)].healthy
  {
    GapFromMeans(vs, p, 1);
  }

  lemma GapIsShort(vs: seq<BackendView>, p: nat)
    requires p < |vs|
    ensures Gap(vs, p) < |vs|
  {
    GapFromMeans(vs, p, 1);
  }

  lemma WithinGap(vs: seq<BackendView>, r: nat, p: nat, k: nat)
    requires r < |vs| && p < |vs| && k < Back(p, r, |vs|) <= Gap(vs, p)
    ensures !vs[Slot(r, k, |vs|)].healthy
  {
    GapFromMeans(vs, p, 1);
    SlotIsBack(r, p, k, |vs|);
  }

  lemma BeyondGap(vs: seq<BackendView>, r: nat, p: nat) returns (k: nat)
    requires r < |vs| && p < |vs| && Gap(vs, p) < Back(p, r, |vs|)
    ensures k < Back(p, r, |vs|) < |vs| && vs[Slot(r, k, |vs|)].healthy
  {
    GapFromMeans(vs, p, 1);
    k := Back(p, r, |vs|) - (Gap(vs, p) + 1);
    SlotIsBack(r, p, k, |vs|);
  }

  /** A selection lands on the healthy position `p` exactly when it starts on `p` or on one
      of the unhealthy positions just before it. */
  lemma PickLands(vs: seq<BackendView>, counter: nat, p: nat)
    requires p < |vs| && vs[p].healthy
    ensures Pick(vs, counter) == Some(p) <==> Back(p, Start(counter, |vs|), |vs|) <= Gap(vs, p)
  {
    var n, r := |vs|, Start(counter, |vs|);
    NextStart(counter, 0, n);
    SlotIsBack(r, p, 0, n);
    PickIsFirst(vs, counter);
    var d := Back(p, r, n);
    var k :| 0 <= k < n && FirstHealthy(vs, r, k) && Pick(vs, counter) == Some(Slot(r, k, n));
    if d <= Gap(vs, p) {
      forall j | 0 <= j < d ensures !vs[Slot(r, j, n)].healthy {
        WithinGap(vs, r, p, j);
      }
    } else {
      var j := BeyondGap(vs, r, p);
      assert k <= j;
    }
  }

  /** How many of `m` consecutive selections pick `p`. */
  function TimesPicked(vs: seq<BackendView>, counter: nat, p: nat, m: nat): nat {
    if m == 0 then 0
    else TimesPicked(vs, counter, p, m - 1) + if Pick(vs, counter + m - 1) == Some(p) then 1 else 0
  }

  function Clamp(x: int): nat {
    if x < 0 then 0 else x
  }

  /** How many of the first `m` starts are at most `g` steps before a position that is `d`
      steps ahead of the first start. */
  function Landings(m: nat, d: nat, g: nat, n: nat): int {
    if m <= d + 1 then Clamp(m - Clamp(d - g))
    else d + 1 - Clamp(d - g) + Clamp(m - (d + n - g))
  }

  lemma LandingsStep(m: nat, r: nat, p: nat, g: nat, n: nat)
    requires 0 < m <= n && r < n && p < n && g < n
    ensures var d := Back(p, r, n);
            Landings(m, d, g, n) == Landings(m - 1, d, g, n)
              + if Back(p, Slot(r, m - 1, n), n) <= g then 1 else 0
  {
  }

  lemma LandsOnce(vs: seq<BackendView>, counter: nat, p: nat, m: nat)
    requires p < |vs| && vs[p].healthy && 0 < m <= |vs|
    ensures Pick(vs, counter + m - 1) == Some(p) <==>
            Back(p, Slot(Start(counter, |vs|), m - 1, |vs|), |vs|) <= Gap(vs, p)
  {
    PickLands(vs, counter + m - 1, p);
    NextStart(counter, m - 1, |vs|);
  }

  lemma {:induction false} PicksCount(vs: seq<BackendView>, counter: nat, p: nat, m: nat)
    requires p < |vs| && vs[p].healthy && m <= |vs|
    ensures TimesPicked(vs, counter, p, m) == Landings(m, Back(p, Start(counter, |vs|), |vs|), Gap(vs, p), |vs|)
  {
    GapIsShort(vs, p);
    NextStart(counter, 0, |vs|);
    if m == 0 {
    } else {
      PicksCount(vs, counter, p, m - 1);
      LandsOnce(vs, counter, p, m);
      LandingsStep(m, Start(counter, |vs|), p, Gap(vs, p), |vs|);
    }
  }

  /** Fairness.  With health fixed, as many consecutive selections as there are positions
      pick each healthy position once for itself and once for every consecutive unhealthy
      position just before it. */
  lemma RotationIsFair(vs: seq<BackendView>, counter: nat, p: nat)
    requires p < |vs| && vs[p].healthy
    ensures TimesPicked(vs, counter, p, |vs|) == 1 + Gap(vs, p)
  {
    PicksCount(vs, counter, p, |vs|);
    GapIsShort(vs, p);
    NextStart(counter, 0, |vs|);
  }

  /******* The scan as computed *******/

  /** What a scan for a healthy position comes to: a position, none, or an index outside the
      list. */
  datatype Picked = Found(position: nat) | Nobody | OutOfRange

  function ScanFrom(vs: seq<BackendView>, counter: Word64, i: nat): Picked
    requires vs != []
    decreases |vs| - i
  {
    if i >= |vs| then Nobody
    else if !InRange(counter, i, |vs|) then OutOfRange
    else if vs[Position(counter, i, |vs|)].healthy then Found(Position(counter, i, |vs|))
    else ScanFrom(vs, counter, i + 1)
  }

  function RoundRobin(vs: seq<BackendView>, counter: Word64): Picked {
    if vs == [] then Nobody else ScanFrom(vs, counter, 0)
  }

  /** The scan gets to offset `k`. */
  ghost predicate Reaches(vs: seq<BackendView>, counter: Word64, k: nat)
    requires k < |vs|
  {
    forall j | 0 <= j < k :: InRange(counter, j, |vs|) && !vs[Position(counter, j, |vs|)].healthy
  }

  lemma {:induction false} ScanFromStops(vs: seq<BackendView>, counter: Word64, i: nat)
    requires vs != [] && i <= |vs|
    requires forall j | 0 <= j < i :: InRange(counter, j, |vs|) && !vs[Position(counter, j, |vs|)].healthy
    ensures match ScanFrom(vs, counter, i)
            case Nobody => AllPositionsInRange(counter, |vs|)
            case Found(p) =>
              && p < |vs| && vs[p].healthy
              && exists k | 0 <= k < |vs| :: Reaches(vs, counter, k) && Position(counter, k, |vs|) == p
            case OutOfRange => exists k | 0 <= k < |vs| :: Reaches(vs, counter, k) && !InRange(counter, k, |vs|)
    decreases |vs| - i
  {
    if i == |vs| {
    } else {
      assert Reaches(vs, counter, i);
      if InRange(counter, i, |vs|) && !vs[Position(counter, i, |vs|)].healthy {
        ScanFromStops(vs, counter, i + 1);
      }
    }
  }

  function Plain(pick: Option<nat>): Picked {
    if pick.Some? then Found(pick.value) else Nobody
  }

  lemma {:induction false} ScanFromIsPlain(vs: seq<BackendView>, counter: Word64, i: nat)
    requires vs != [] && AllPositionsInRange(counter, |vs|) && Start(counter, |vs|) < |vs|
    ensures ScanFrom(vs, counter, i) == Plain(PickFrom(vs, Start(counter, |vs|), i))
    decreases |vs| - i
  {
    if i >= |vs| {
    } else {
      assert InRange(counter, i, |vs|);
      PositionIsSlot(counter, i, |vs|);
      ScanFromIsPlain(vs, counter, i + 1);
    }
  }

  /** Round robin, for every value of the counter: it picks the first healthy position it
      gets to, finds nobody exactly when all positions are in range and none is healthy, and
      fails at the first position outside the list otherwise.  If all positions are in
      range, it is the plain rotation. */
  lemma RoundRobinIsFirst(vs: seq<BackendView>, counter: Word64)
    ensures match RoundRobin(vs, counter)
            case Nobody => NobodyHealthy(vs) && (vs != [] ==> AllPositionsInRange(counter, |vs|))
            case Found(p) =>
              && p < |vs| && vs[p].healthy
              && exists k | 0 <= k < |vs| :: Reaches(vs, counter, k) && Position(counter, k, |vs|) == p
            case OutOfRange => exists k | 0 <= k < |vs| :: Reaches(vs, counter, k) && !InRange(counter, k, |vs|)
    ensures vs != [] && AllPositionsInRange(counter, |vs|) ==> RoundRobin(vs, counter) == Plain(Pick(vs, counter))
  {
    if vs != [] {
      ScanFromStops(vs, counter, 0);
      if AllPositionsInRange(counter, |vs|) {
        NextStart(counter, 0, |vs|);
        ScanFromIsPlain(vs, counter, 0);
        PickIsFirst(vs, counter);
      }
    }
  }

  lemma {:induction false} RoundRobinIsPick(vs: seq<BackendView>, counter: Word64)
    requires vs != [] && counter + |vs| <= TWO_63
    ensures RoundRobin(vs, counter) == Plain(Pick(vs, counter))
  {
    LowCounter(counter, |vs|);
    RoundRobinIsFirst(vs, counter);
  }

  function TimesFound(vs: seq<BackendView>, counter: Word64, p: nat, m: nat): nat
    requires counter + m <= TWO_64
  {
    if m == 0 then 0
    else TimesFound(vs, counter, p, m - 1) + if RoundRobin(vs, counter + m - 1) == Found(p) then 1 else 0
  }

  lemma {:induction false} FoundArePicked(vs: seq<BackendView>, counter: Word64, p: nat, m: nat)
    requires p < |vs| && counter + m + |vs| <= TWO_63
    ensures TimesFound(vs, counter, p, m) == TimesPicked(vs, counter, p, m)
  {
    if m == 0 {
    } else {
      FoundArePicked(vs, counter, p, m - 1);
      RoundRobinIsPick(vs, counter + m - 1);
    }
  }

  /** The scan is fair as it is computed, too. */
  lemma {:induction false} RoundRobinIsFair(vs: seq<BackendView>, counter: Word64, p: nat)
    requires p < |vs| && vs[p].healthy && counter + |vs| + |vs| <= TWO_63
    ensures TimesFound(vs, counter, p, |vs|) == 1 + Gap(vs, p)
  {
    FoundArePicked(vs, counter, p, |vs|);
    RotationIsFair(vs, counter, p);
  }

  /******* Cold scan *******/

  datatype Best = Best(position: nat, score: real)

  function Better(best: Option<Best>, score: real): bool {
    best.None? || score > best.value.score
  }

  /** The best cold position among the first `m` of a rotation from `r`. */
  function ColdScan(vs: seq<BackendView>, r: nat, m: nat): Option<Best>
    requires r < |vs| && m <= |vs|
  {
    if m == 0 then None
    else
      var before := ColdScan(vs, r, m - 1);
      var p := Slot(r, m - 1, |vs|);
      var score := Score(vs[p], 0.0);
      if vs[p].healthy && Better(before, score) then Some(Best(p, score)) else before
  }

  ghost predicate FirstBest(vs: seq<BackendView>, r: nat, m: nat, i: nat, best: Best)
    requires r < |vs| && i < m <= |vs|
  {
    && best.position == Slot(r, i, |vs|)
    && vs[best.position].healthy
    && best.score == Score(vs[best.position], 0.0)
    && (forall j | 0 <= j < m && vs[Slot(r, j, |vs|)].healthy :: Score(vs[Slot(r, j, |vs|)], 0.0) <= best.score)
    && (forall j | 0 <= j < i && vs[Slot(r, j, |vs|)].healthy :: Score(vs[Slot(r, j, |vs|)], 0.0) < best.score)
  }

  ghost predicate IsColdBest(vs: seq<BackendView>, r: nat, m: nat, best: Option<Best>)
    requires r < |vs| && m <= |vs|
  {
    match best
    case None => forall j | 0 <= j < m :: !vs[Slot(r, j, |vs|)].healthy
    case Some(b) => exists i | 0 <= i < m :: FirstBest(vs, r, m, i, b)
  }

  lemma {:induction false} ColdScanIsFirstBest(vs: seq<BackendView>, r: nat, m: nat)
    requires r < |vs| && m <= |vs|
    ensures IsColdBest(vs, r, m, ColdScan(vs, r, m))
  {
    if m == 0 {
    } else {
      ColdScanIsFirstBest(vs, r, m - 1);
      var before, after := ColdScan(vs, r, m - 1), ColdScan(vs, r, m);
      var i := 0;
      if before.Some? {
        i :| 0 <= i < m - 1 && FirstBest(vs, r, m - 1, i, before.value);
      }
      if after.Some? {
        assert FirstBest(vs, r, m, if after == before then i else m - 1, after.value);
      }
    }
  }

  /** The load-aware fallback. */
  function Fallback(vs: seq<BackendView>, counter: nat): Option<Best> {
    if vs == [] then None
    else
      NextStart(counter, 0, |vs|);
      ColdScan(vs, Start(counter, |vs|), |vs|)
  }

  /** The fallback is the cyclically first of the positions that are best when cold. */
  lemma FallbackIsBest(vs: seq<BackendView>, counter: nat)
    ensures match Fallback(vs, counter)
            case None => NobodyHealthy(vs)
            case Some(best) =>
              && best.position < |vs| && vs[best.position].healthy
              && best.score == Score(vs[best.position], 0.0)
              && (forall p | 0 <= p < |vs| && vs[p].healthy :: Score(vs[p], 0.0) <= best.score)
              && (exists i | 0 <= i < |vs| :: FirstBest(vs, Start(counter, |vs|), |vs|, i, best))
  {
    if vs != [] {
      var r := Start(counter, |vs|);
      ColdScanIsFirstBest(vs, r, |vs|);
      forall p | 0 <= p < |vs| && vs[p].healthy
        ensures Fallback(vs, counter).Some? && Score(vs[p], 0.0) <= Fallback(vs, counter).value.score
      {
        assert p == Slot(r, Back(p, r, |vs|), |vs|);
      }
    }
  }

  predicate SameCosts(v: BackendView, u: BackendView) {
    10.0 * v.inflight as real + 1.5 * v.latency + 50.0 * v.errorRate
    == 10.0 * u.inflight as real + 1.5 * u.latency + 50.0 * u.errorRate
  }

  predicate EqualCosts(vs: seq<BackendView>) {
    forall p, q | 0 <= p < |vs| && 0 <= q < |vs| && vs[p].healthy && vs[q].healthy :: SameCosts(vs[p], vs[q])
  }

  /** When all healthy backends cost the same, the fallback is round robin. */
  lemma EqualCostsRotate(vs: seq<BackendView>, counter: nat)
    requires EqualCosts(vs)
    ensures Pick(vs, counter)
         == if Fallback(vs, counter).Some? then Some(Fallback(vs, counter).value.position) else None
  {
    PickIsFirst(vs, counter);
    FallbackIsBest(vs, counter);
    if Fallback(vs, counter).Some? {
      var r, best := Start(counter, |vs|), Fallback(vs, counter).value;
      var i :| 0 <= i < |vs| && FirstBest(vs, r, |vs|, i, best);
      var k :| 0 <= k < |vs| && FirstHealthy(vs, r, k) && Pick(vs, counter) == Some(Slot(r, k, |vs|));
      assert SameCosts(vs[Slot(r, i, |vs|)], vs[Slot(r, k, |vs|)]);
    }
  }

  /******* Warm scan *******/

  /** The scan of the candidates, in the order `order`, on top of a best so far. */
  function WarmScan(vs: seq<BackendView>, matches: Matches, order: seq<string>, best: Option<Best>): Option<Best>
    requires forall i | 0 <= i < |order| :: order[i] in matches
  {
    if order == [] then best
    else
      var n := |order| - 1;
      var before := WarmScan(vs, matches, order[..n], best);
      match LastIndex(Ids(vs), order[n])
      case None => before
      case Some(p) =>
        LastIndexIsLast(Ids(vs), order[n]);
        var score := Score(vs[p], matches[order[n]].warmth);
        if vs[p].healthy && Better(before, score) then Some(Best(p, score)) else before
  }

  predicate Enumerates(order: seq<string>, matches: Matches) {
    && (forall i | 0 <= i < |order| :: order[i] in matches)
    && (forall id | id in matches :: id in order)
  }

  function Choose(vs: seq<BackendView>, start: nat, matches: Matches, order: seq<string>): Option<Best>
    requires Enumerates(order, matches)
  {
    WarmScan(vs, matches, order, Fallback(vs, start))
  }

  /** The warmth that counts for a position: that of its ID, if its ID finds it. */
  function WarmthAt(vs: seq<BackendView>, matches: Matches, p: nat): real
    requires p < |vs|
  {
    var id := vs[p].endpoint.id;
    if id in matches && LastIndex(Ids(vs), id) == Some(p) then matches[id].warmth else 0.0
  }

  function TrueScore(vs: seq<BackendView>, matches: Matches, p: nat): real
    requires p < |vs|
  {
    Score(vs[p], WarmthAt(vs, matches, p))
  }

  ghost predicate AllWarm(matches: Matches) {
    forall id | id in matches :: matches[id].warmth > 0.0
  }

  /** What holds after the candidates in `order`, starting from the cold best. */
  ghost predicate WarmBest(vs: seq<BackendView>, matches: Matches, order: seq<string>, cold: Best, best: Best) {
    && best.position < |vs| && vs[best.position].healthy
    && cold.score <= best.score
    && (best == cold || best.score == TrueScore(vs, matches, best.position))
    && (forall p | 0 <= p < |vs| && vs[p].healthy && vs[p].endpoint.id in order
                   && LastIndex(Ids(vs), vs[p].endpoint.id) == Some(p) ::
          TrueScore(vs, matches, p) <= best.score)
  }

  lemma {:induction false} WarmScanIsBest(vs: seq<BackendView>, matches: Matches, order: seq<string>, cold: Best)
    requires forall i | 0 <= i < |order| :: order[i] in matches
    requires cold.position < |vs| && vs[cold.position].healthy
    ensures var best := WarmScan(vs, matches, order, Some(cold));
            best.Some? && WarmBest(vs, matches, order, cold, best.value)
  {
    if order == [] {
    } else {
      var n := |order| - 1;
      WarmScanIsBest(vs, matches, order[..n], cold);
      LastIndexIsLast(Ids(vs), order[n]);
      assert order == order[..n] + [order[n]];
    }
  }

  lemma {:induction false} WarmScanNobody(vs: seq<BackendView>, matches: Matches, order: seq<string>)
    requires forall i | 0 <= i < |order| :: order[i] in matches
    requires NobodyHealthy(vs)
    ensures WarmScan(vs, matches, order, None) == None
  {
    if order == [] {
    } else {
      WarmScanNobody(vs, matches, order[..|order| - 1]);
      LastIndexIsLast(Ids(vs), order[|order| - 1]);
    }
  }

  /** Optimality.  The two scans return a healthy position whose score, with the warmth
      that counts for it, is the largest over all healthy positions, whatever the order
      the candidates are visited in; they return none exactly when nobody is healthy. */
  lemma ChoiceIsOptimal(vs: seq<BackendView>, start: nat, matches: Matches, order: seq<string>)
    requires Enumerates(order, matches) && AllWarm(matches)
    ensures match Choose(vs, start, matches, order)
            case None => NobodyHealthy(vs)
            case Some(best) =>
              && best.position < |vs| && vs[best.position].healthy
              && best.score == TrueScore(vs, matches, best.position)
              && (forall p | 0 <= p < |vs| && vs[p].healthy :: TrueScore(vs, matches, p) <= best.score)
  {
    FallbackIsBest(vs, start);
    match Fallback(vs, start)
    case None => WarmScanNobody(vs, matches, order);
    case Some(cold) =>
      WarmScanIsBest(vs, matches, order, cold);
      var best := WarmScan(vs, matches, order, Some(cold)).value;
      forall p | 0 <= p < |vs| && vs[p].healthy ensures TrueScore(vs, matches, p) <= best.score {
        if WarmthAt(vs, matches, p) == 0.0 {
          assert Score(vs[p], 0.0) <= cold.score;
        }
      }
      if best == cold {
        assert TrueScore(vs, matches, cold.position) <= cold.score;
      }
  }

  /** With distinct IDs the warmth that counts is simply the candidate's. */
  lemma DistinctIdsCount(vs: seq<BackendView>, matches: Matches, p: nat)
    requires p < |vs| && Distinct(Ids(vs))
    ensures WarmthAt(vs, matches, p) == BestWarmth(matches, vs[p].endpoint.id)
  {
    LastIndexIsLast(Ids(vs), vs[p].endpoint.id);
    assert Ids(vs)[p] == vs[p].endpoint.id;
  }

  /** The achieved score depends neither on the order of candidates nor on the rotation. */
  lemma ScoreIsDetermined(vs: seq<BackendView>, matches: Matches, start: nat, order: seq<string>, start': nat, order': seq<string>)
    requires Enumerates(order, matches) && Enumerates(order', matches) && AllWarm(matches)
    ensures var a, b := Choose(vs, start, matches, order), Choose(vs, start', matches, order');
            a.Some? == b.Some? && (a.Some? ==> a.value.score == b.value.score)
  {
    ChoiceIsOptimal(vs, start, matches, order);
    ChoiceIsOptimal(vs, start', matches, order');
  }

  /** `v` with warmth `w` is worth no more than `u` with warmth `x`: each request in flight
      costs 10, each millisecond of latency 1.5 and the error rate up to 50, and each token
      of warmth brings 150. */
  predicate NoBetter(v: BackendView, w: real, u: BackendView, x: real) {
    10.0 * (v.inflight - u.inflight) as real + 1.5 * (v.latency - u.latency) + 50.0 * (v.errorRate - u.errorRate)
    >= 150.0 * (w - x)
  }

  lemma NoBetterIsLowerScore(v: BackendView, w: real, u: BackendView, x: real)
    ensures NoBetter(v, w, u, x) <==> Score(v, w) <= Score(u, x)
  {
    assert (v.inflight - u.inflight) as real == v.inflight as real - u.inflight as real;
  }

  /** The trade-off: a healthy backend loses to the chosen one only if what it costs more is
      at least 150 times what it is warmer. */
  lemma AffinityTradeOff(vs: seq<BackendView>, start: nat, matches: Matches, order: seq<string>, p: nat)
    requires Enumerates(order, matches) && AllWarm(matches)
    requires p < |vs| && vs[p].healthy
    ensures Choose(vs, start, matches, order).Some?
    ensures var c := Choose(vs, start, matches, order).value.position;
            && c < |vs| && vs[c].healthy
            && 10.0 * (vs[p].inflight - vs[c].inflight) as real
               + 1.5 * (vs[p].latency - vs[c].latency)
               + 50.0 * (vs[p].errorRate - vs[c].errorRate)
               >= 150.0 * (WarmthAt(vs, matches, p) - WarmthAt(vs, matches, c))
  {
    ChoiceIsOptimal(vs, start, matches, order);
    var c := Choose(vs, start, matches, order).value.position;
    NoBetterIsLowerScore(vs[p], WarmthAt(vs, matches, p), vs[c], WarmthAt(vs, matches, c));
  }

  /** Dearer in something and cheaper in nothing. */
  predicate Dearer(v: BackendView, u: BackendView) {
    && v.inflight >= u.inflight && v.latency >= u.latency && v.errorRate >= u.errorRate
    && (v.inflight > u.inflight || v.latency > u.latency || v.errorRate > u.errorRate)
  }

  /** A listing is never chosen over a healthy one that is as warm and cheaper, nor over one
      that is warmer and costs as much. */
  lemma WorseIsPassedOver(vs: seq<BackendView>, start: nat, matches: Matches, order: seq<string>, p: nat, q: nat)
    requires Enumerates(order, matches) && AllWarm(matches)
    requires p < |vs| && q < |vs| && vs[q].healthy
    requires || (Dearer(vs[p], vs[q]) && WarmthAt(vs, matches, p) <= WarmthAt(vs, matches, q))
             || (vs[p].inflight == vs[q].inflight && vs[p].latency == vs[q].latency && vs[p].errorRate == vs[q].errorRate
                 && WarmthAt(vs, matches, p) < WarmthAt(vs, matches, q))
    ensures Choose(vs, start, matches, order).Some? && Choose(vs, start, matches, order).value.position != p
  {
    AffinityTradeOff(vs, start, matches, order, q);
  }

  /** Warming only the chosen backend keeps it chosen, for every rotation and every order
      of candidates. */
  lemma WarmingKeepsChoice(vs: seq<BackendView>, start: nat, matches: Matches, order: seq<string>,
                           warmer: CandidateMatch, start': nat, order': seq<string>)
    requires Enumerates(order, matches) && AllWarm(matches)
    requires Choose(vs, start, matches, order).Some?
    requires var c := Choose(vs, start, matches, order).value.position;
             && c < |vs|
             && LastIndex(Ids(vs), vs[c].endpoint.id) == Some(c)
             && warmer.warmth > WarmthAt(vs, matches, c)
             && Enumerates(order', matches[vs[c].endpoint.id := warmer])
    ensures var c := Choose(vs, start, matches, order).value.position;
            var next := Choose(vs, start', matches[vs[c].endpoint.id := warmer], order');
            next.Some? && next.value.position == c
  {
    ChoiceIsOptimal(vs, start, matches, order);
    var c := Choose(vs, start, matches, order).value.position;
    var matches' := matches[vs[c].endpoint.id := warmer];
    assert WarmthAt(vs, matches, c) >= 0.0;
    ChoiceIsOptimal(vs, start', matches', order');
    forall p | 0 <= p < |vs| && p != c ensures TrueScore(vs, matches', p) == TrueScore(vs, matches, p) {
    }
  }

  /******* The method *******/

  /** `vs` is what the listed states look like. */
  ghost predicate Shown(list: seq<BackendState>, vs: seq<BackendView>)
    reads set s | s in list, set s | s in list :: s.latency, set s | s in list :: s.errorRate
  {
    |list| == |vs| && forall k | 0 <= k < |list| :: list[k].View() == vs[k]
  }

  method ScoreBackend(endpoint: BackendState, matchScore: real) returns (score: real)
    ensures score == Score(endpoint.View(), matchScore)
  {
    score := PREFIX_MATCH_WEIGHT * matchScore
             - INFLIGHT_WEIGHT * endpoint.inflight as real
             - LATENCY_WEIGHT * endpoint.latency.Get()
             - ERROR_WEIGHT * endpoint.errorRate.Get();
  }

  /** No maximum yet stands for the source's minus infinity, and `panics` for an index outside
      the list. */
  method LoadAwareFallback(list: seq<BackendState>, start: Word64, ghost vs: seq<BackendView>)
    returns (selected: BackendState?, maxScore: Option<real>, panics: bool)
    requires Shown(list, vs)
    ensures panics == (list != [] && !AllPositionsInRange(start, |list|))
    ensures !panics ==> Reflects(list, selected, maxScore, Fallback(vs, start))
  {
    selected, maxScore, panics := null, None, false;
    ghost var best: Option<Best> := None;
    if list == [] {
      return;
    }
    NextStart(start, 0, |list|);
    for i := 0 to |list|
      invariant forall j | 0 <= j < i :: InRange(start, j, |list|)
      invariant AllPositionsInRange(start, |list|) ==> best == ColdScan(vs, Start(start, |list|), i)
      invariant Reflects(list, selected, maxScore, best)
    {
      if !InRange(start, i, |list|) {
        panics := true;
        return;
      }
      var p := Position(start, i, |list|);
      if AllPositionsInRange(start, |list|) {
        PositionIsSlot(start, i, |list|);
      }
      var endpoint := list[p];
      if !endpoint.healthy {
        continue;
      }
      var score := ScoreBackend(endpoint, 0.0);
      if maxScore.None? || score > maxScore.value {
        maxScore := Some(score);
        selected := endpoint;
        best := Some(Best(p, score));
      }
    }
  }

  /** Looking `id` up leads to its last listing. */
  ghost predicate FindsId(s: Snapshot<BackendState>, vs: seq<BackendView>, id: string) {
    match LastIndex(Ids(vs), id)
    case None => id !in s.byId
    case Some(p) => p < |s.list| && id in s.byId && s.byId[id] == s.list[p]
  }

  ghost predicate Finds(s: Snapshot<BackendState>, vs: seq<BackendView>) {
    forall id :: FindsId(s, vs, id)
  }

  /** A state and score stand for a best position. */
  ghost predicate Reflects(list: seq<BackendState>, selected: BackendState?, score: Option<real>, best: Option<Best>) {
    match best
    case None => selected == null && score == None
    case Some(b) => b.position < |list| && selected == list[b.position] && score == Some(b.score)
  }

  /** The candidates are visited in an arbitrary order, reported as `order`. */
  method ScanCandidates(s: Snapshot<BackendState>, matches: Matches, fallback: BackendState?, fallbackScore: Option<real>,
                        ghost vs: seq<BackendView>, ghost cold: Option<Best>)
    returns (selected: BackendState?, maxScore: Option<real>, ghost order: seq<string>)
    requires Shown(s.list, vs) && Finds(s, vs) && Reflects(s.list, fallback, fallbackScore, cold)
    ensures Enumerates(order, matches)
    ensures Reflects(s.list, selected, maxScore, WarmScan(vs, matches, order, cold))
  {
    selected, maxScore, order := fallback, fallbackScore, [];
    ghost var best := cold;
    var todo := matches.Keys;
    while todo != {}
      invariant todo <= matches.Keys
      invariant forall i | 0 <= i < |order| :: order[i] in matches
      invariant forall id | id in matches :: id in todo || id in order
      invariant best == WarmScan(vs, matches, order, cold)
      invariant Reflects(s.list, selected, maxScore, best)
    {
      var id :| id in todo;
      todo := todo - {id};
      assert (order + [id])[..|order|] == order;
      order := order + [id];
      assert FindsId(s, vs, id);
      if id !in s.byId || !s.byId[id].healthy {
        continue;
      }
      var endpoint := s.byId[id];
      var score := ScoreBackend(endpoint, matches[id].warmth);
      if maxScore.None? || score > maxScore.value {
        maxScore := Some(score);
        selected := endpoint;
        best := Some(Best(LastIndex(Ids(vs), id).value, score));
      }
    }
  }

  /** The rotation of the other policies. */
  method RotatingSelect(list: seq<BackendState>, start: Word64, ghost vs: seq<BackendView>)
    returns (selected: BackendState?, panics: bool)
    requires Shown(list, vs)
    ensures Lands(list, RoundRobin(vs, start), selected, panics)
  {
    for i := 0 to |list|
      invariant list != [] ==> RoundRobin(vs, start) == ScanFrom(vs, start, i)
    {
      if !InRange(start, i, |list|) {
        return null, true;
      }
      var backend := list[Position(start, i, |list|)];
      if backend.healthy {
        return backend, false;
      }
    }
    return null, false;
  }

  ghost predicate Lands(list: seq<BackendState>, picked: Picked, selected: BackendState?, panics: bool) {
    match picked
    case Found(p) => p < |list| && selected == list[p] && !panics
    case Nobody => selected == null && !panics
    case OutOfRange => selected == null && panics
  }
}
