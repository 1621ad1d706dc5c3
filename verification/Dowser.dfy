/** `Dowser`: estimates how much can flow between two nodes by probing an oracle that
    answers all or nothing for one amount at a time.  Floating-point factors are
    taken exactly: the reserve factor 0.985 is 197/200. */
module DowserSearch {
  import opened Wrappers
  import opened Amounts

  /** The answer to one `getroutes` probe: what was delivered (0 for "no flow"), or
      None for an unexpected RPC error. */
  type Oracle = Amount -> Option<Amount>

  const DEFAULT_PROBE: Amount := 1_000_000_000

  function Cap(v: nat): Amount {
    if v > MAX_AMOUNT then MAX_AMOUNT else v
  }

  /** `amount * reserve_factor`, truncated. */
  function Haircut(v: Amount): Amount {
    v * 197 / 200
  }

  /** `amount * (1.0 / reserve_factor) + Amount::sat(1)`. */
  function Scale(v: Amount): Amount {
    SatAdd(Cap(v * 200 / 197), 1000)
  }

  function ProbeAmount(target: Amount): Amount {
    if target > 0 then Scale(target) else DEFAULT_PROBE
  }

  function Resolution(probe: Amount): Amount {
    probe / 32
  }

  /** `floor_probe_amount`. */
  function FloorAmount(probe: Amount, floorTarget: Amount): Amount {
    if floorTarget != 0 && Scale(floorTarget) < Resolution(probe) then Scale(floorTarget) + 1
    else Resolution(probe) + 1
  }

  datatype Found = Aborted | Unfinished | Found(delivered: Amount)

  function Middle(lo: Amount, hi: Amount): Amount {
    Wrap64(lo + hi) / 2
  }

  predicate Close(lo: Amount, hi: Amount, resolution: Amount) {
    hi <= lo || SatSub(hi, lo) <= resolution
  }

  /** `refine`, allowed at most `probes` probes. */
  function Refine(flow: Oracle, lo: Amount, hi: Amount, delivered: Amount, resolution: Amount, probes: nat): Found
    decreases probes
  {
    if Close(lo, hi, resolution) then Found(delivered)
    else if probes == 0 then Unfinished
    else
      var mid := Middle(lo, hi);
      match flow(mid)
      case None => Aborted
      case Some(d) =>
        if d != 0 then Refine(flow, mid, hi, d, resolution, probes - 1)
        else Refine(flow, lo, mid, delivered, resolution, probes - 1)
  }

  /** `probe` before the haircut: the ceiling, the floor, then the search between. */
  function Probe(flow: Oracle, probe: Amount, floorTarget: Amount, probes: nat): Found {
    var bottom := FloorAmount(probe, floorTarget);
    match flow(probe)
    case None => Aborted
    case Some(full) =>
      if full != 0 then Found(full)
      else match flow(bottom)
        case None => Aborted
        case Some(d) =>
          if d == 0 then Found(0) else Refine(flow, bottom, probe, d, Resolution(probe), probes)
  }

  /** `run`: an aborted dowse reports zero. */
  function Report(found: Found): Amount
    requires !found.Unfinished?
  {
    match found case Aborted => 0 case Found(d) => Haircut(d)
  }

  // ------------------------------------------------------------------- sizing

  lemma ScaleIsCapped(v: Amount)
    ensures Scale(v) == if v * 200 / 197 + 1000 <= MAX_AMOUNT then v * 200 / 197 + 1000 else MAX_AMOUNT
  {
    SatAddIsCappedSum(Cap(v * 200 / 197), 1000);
  }

  lemma HaircutMonotone(a: Amount, b: Amount)
    requires a <= b
    ensures Haircut(a) <= Haircut(b)
  {
  }

  /** A scaled amount survives the haircut, with both roundings and the cap. */
  lemma ScaleSurvives(v: Amount)
    ensures Haircut(Scale(v)) >= v <==> v <= Haircut(MAX_AMOUNT)
    ensures Haircut(Scale(v)) < v + 987
  {
    ScaleIsCapped(v);
    HaircutMonotone(Scale(v), MAX_AMOUNT);
    var q := v * 200 / 197;
    assert v * 200 - 197 < 197 * q <= v * 200;
    if q + 1000 <= MAX_AMOUNT {
      assert Scale(v) * 197 == q * 197 + 197000;
    }
  }

  /** The ceiling is at least 1000 msat, so the resolution is never zero. */
  lemma ProbeIsSized(target: Amount)
    ensures ProbeAmount(target) >= 1000 && Resolution(ProbeAmount(target)) >= 31
  {
    ScaleIsCapped(target);
  }

  lemma FloorIsSized(probe: Amount, floorTarget: Amount)
    requires probe >= 1000
    ensures var f := FloorAmount(probe, floorTarget);
            32 <= f <= Resolution(probe) + 1 && f < probe && probe - f <= 32 * Resolution(probe)
  {
    ScaleIsCapped(floorTarget);
  }

  /** A full flow reported to the caller meets the target, for every target that any
      64-bit amount can meet after the haircut. */
  lemma FullFlowMeetsTarget(flow: Oracle, target: Amount, floorTarget: Amount, probes: nat)
    requires target > 0 && flow(ProbeAmount(target)) == Some(ProbeAmount(target))
    ensures Probe(flow, ProbeAmount(target), floorTarget, probes).Found?
    ensures Report(Probe(flow, ProbeAmount(target), floorTarget, probes)) >= target
            <==> target <= Haircut(MAX_AMOUNT)
  {
    ProbeIsSized(target);
    ScaleSurvives(target);
  }

  // -------------------------------------------------------------- the bisection

  /** More probes than needed change nothing. */
  lemma {:induction false} MoreProbes(flow: Oracle, lo: Amount, hi: Amount, delivered: Amount, resolution: Amount,
                                      probes: nat, more: nat)
    requires probes <= more && !Refine(flow, lo, hi, delivered, resolution, probes).Unfinished?
    ensures Refine(flow, lo, hi, delivered, resolution, more) == Refine(flow, lo, hi, delivered, resolution, probes)
    decreases probes
  {
    if !Close(lo, hi, resolution) {
      var mid := Middle(lo, hi);
      if flow(mid).Some? {
        if flow(mid).value != 0 {
          MoreProbes(flow, mid, hi, flow(mid).value, resolution, probes - 1, more - 1);
        } else {
          MoreProbes(flow, lo, mid, delivered, resolution, probes - 1, more - 1);
        }
      }
    }
  }

  /** `x` doubled k times. */
  function Reach(k: nat, x: int): int {
    if k == 0 then x else 2 * Reach(k - 1, x)
  }

  lemma {:induction false} ReachSign(k: nat, x: int)
    ensures x >= 0 ==> Reach(k, x) >= x
    ensures x < 0 ==> Reach(k, x) < 0
  {
    if k > 0 {
      ReachSign(k - 1, x);
    }
  }

  /** None of the next k midpoints wraps, whatever the oracle answers: even when all
      probes succeed, the last one still has a bracket wider than the excess of twice
      the ceiling over the 64-bit range. */
  predicate Unwrapped(lo: Amount, hi: Amount, k: nat) {
    k == 0 || hi - lo > Reach(k - 1, 2 * hi - TWO64)
  }

  lemma MiddleHalves(lo: Amount, hi: Amount, resolution: Amount, k: nat)
    requires resolution >= 1 && k > 0 && Unwrapped(lo, hi, k) && !Close(lo, hi, resolution)
    ensures var mid := Middle(lo, hi);
            && lo < mid < hi && hi - lo <= 2 * (hi - mid) <= hi - lo + 1 && 2 * (mid - lo) <= hi - lo
            && Unwrapped(mid, hi, k - 1) && Unwrapped(lo, mid, k - 1)
  {
    ReachSign(k - 1, 2 * hi - TWO64);
    assert lo + hi < TWO64;
    assert Wrap64(lo + hi) == lo + hi;
    if k > 1 {
      ReachSign(k - 2, 2 * Middle(lo, hi) - TWO64);
    }
  }

  ghost predicate SomeProbeErrs(flow: Oracle) {
    exists a: Amount :: flow(a) == None
  }

  /** What the search ends with, for any oracle: what a successful probe at or above
      the floor delivered, and a failing probe at most one resolution above it. */
  ghost predicate Bracketed(flow: Oracle, bottom: Amount, delivered: Amount, resolution: Amount) {
    exists lo: Amount, hi: Amount ::
      && bottom <= lo < hi <= lo + resolution
      && delivered != 0 && flow(lo) == Some(delivered) && flow(hi) == Some(0)
  }

  /** A bracket of at most 2^k resolutions, none of whose next k midpoints wraps, takes
      at most k probes, whatever the oracle answers, and ends with the answer
      bracketed. */
  lemma {:induction false} RefineFinishes(flow: Oracle, bottom: Amount, lo: Amount, hi: Amount, delivered: Amount,
                                          resolution: Amount, k: nat)
    requires resolution >= 1 && Unwrapped(lo, hi, k) && bottom <= lo < hi && hi - lo <= Reach(k, resolution)
    requires delivered != 0 && flow(lo) == Some(delivered) && flow(hi) == Some(0)
    ensures var r := Refine(flow, lo, hi, delivered, resolution, k);
            && !r.Unfinished? && (r.Aborted? ==> SomeProbeErrs(flow))
            && (r.Found? ==> Bracketed(flow, bottom, r.delivered, resolution))
    decreases k
  {
    hide Bracketed, SomeProbeErrs, Middle, Unwrapped;
    if Close(lo, hi, resolution) {
      BracketedBy(flow, bottom, lo, hi, delivered, resolution);
    } else {
      var mid := Middle(lo, hi);
      assert k > 0;
      MiddleHalves(lo, hi, resolution, k);
      match flow(mid)
      case None =>
        ErrsBy(flow, mid);
      case Some(d) =>
        if d != 0 {
          RefineFinishes(flow, bottom, mid, hi, d, resolution, k - 1);
        } else {
          RefineFinishes(flow, bottom, lo, mid, delivered, resolution, k - 1);
        }
    }
  }

  lemma BracketedBy(flow: Oracle, bottom: Amount, lo: Amount, hi: Amount, delivered: Amount, resolution: Amount)
    requires bottom <= lo < hi <= lo + resolution
    requires delivered != 0 && flow(lo) == Some(delivered) && flow(hi) == Some(0)
    ensures Bracketed(flow, bottom, delivered, resolution)
  {
  }

  lemma ErrsBy(flow: Oracle, a: Amount)
    requires flow(a) == None
    ensures SomeProbeErrs(flow)
  {
  }

  lemma ReachFive(x: int)
    ensures Reach(4, x) == 16 * x && Reach(5, x) == 32 * x
  {
    assert Reach(1, x) == 2 * Reach(0, x);
    assert Reach(2, x) == 4 * x;
    assert Reach(3, x) == 8 * x;
  }

  /** The ceilings on which none of five midpoints wraps: all up to half the 64-bit
      range and a little more, by about one part in 62. */
  predicate FiveMiddlesFit(probe: Amount, floorTarget: Amount) {
    31 * probe + FloorAmount(probe, floorTarget) < 16 * TWO64
  }

  lemma FiveUnwrapped(probe: Amount, floorTarget: Amount)
    requires probe >= 1000
    ensures Unwrapped(FloorAmount(probe, floorTarget), probe, 5) <==> FiveMiddlesFit(probe, floorTarget)
  {
    ReachFive(2 * probe - TWO64);
  }

  /** All the bitcoin there can be is far below that. */
  lemma RealTargetsFit(target: Amount, floorTarget: Amount)
    requires target <= 21_000_000 * 100_000_000 * 1000
    ensures FiveMiddlesFit(ProbeAmount(target), floorTarget)
  {
    ScaleIsCapped(target);
    ProbeIsSized(target);
    FloorIsSized(ProbeAmount(target), floorTarget);
  }

  /** Then, for every oracle: the search ends within five refining probes, and reports
      nothing, the delivered ceiling, or a delivered amount with a failing probe at
      most ceiling/32 above. */
  lemma ProbeFinishes(flow: Oracle, probe: Amount, floorTarget: Amount, probes: nat)
    requires probe >= 1000 && FiveMiddlesFit(probe, floorTarget) && probes >= 5
    ensures var r := Probe(flow, probe, floorTarget, probes);
            && !r.Unfinished? && (r.Aborted? ==> SomeProbeErrs(flow))
            && (r.Found? ==>
              || (r.delivered != 0 && flow(probe) == Some(r.delivered))
              || (r.delivered == 0 && flow(FloorAmount(probe, floorTarget)) == Some(0))
              || Bracketed(flow, FloorAmount(probe, floorTarget), r.delivered, Resolution(probe)))
  {
    hide Refine, Bracketed;
    var bottom := FloorAmount(probe, floorTarget);
    FloorIsSized(probe, floorTarget);
    if flow(probe) == Some(0) && flow(bottom).Some? && flow(bottom).value != 0 {
      ReachFive(Resolution(probe));
      FiveUnwrapped(probe, floorTarget);
      RefineFinishes(flow, bottom, bottom, probe, flow(bottom).value, Resolution(probe), 5);
      MoreProbes(flow, bottom, probe, flow(bottom).value, Resolution(probe), 5, probes);
    }
  }

  /** A flow of up to `capacity` is delivered in full, and more not at all. */
  ghost predicate AllOrNothing(flow: Oracle, capacity: nat) {
    forall a: Amount :: flow(a) == Some(if a <= capacity then a else 0)
  }

  /** The estimate never exceeds the capacity, and misses less than ceiling/32 of it
      when the capacity is between floor and ceiling. */
  predicate IsTight(r: Found, capacity: nat, probe: Amount, floorTarget: Amount) {
    var bottom := FloorAmount(probe, floorTarget);
    && r.Found? && r.delivered <= capacity
    && (capacity >= probe ==> r.delivered == probe)
    && (capacity < bottom ==> r.delivered == 0)
    && (bottom <= capacity < probe ==> r.delivered >= bottom && capacity - r.delivered < Resolution(probe))
  }

  lemma EstimateIsTight(flow: Oracle, capacity: nat, probe: Amount, floorTarget: Amount, probes: nat)
    requires AllOrNothing(flow, capacity)
    requires probe >= 1000 && FiveMiddlesFit(probe, floorTarget) && probes >= 5
    ensures IsTight(Probe(flow, probe, floorTarget, probes), capacity, probe, floorTarget)
  {
    hide Refine;
    FloorIsSized(probe, floorTarget);
    ProbeFinishes(flow, probe, floorTarget, probes);
    assert !SomeProbeErrs(flow);
    var r := Probe(flow, probe, floorTarget, probes);
    if Bracketed(flow, FloorAmount(probe, floorTarget), r.delivered, Resolution(probe)) {
      BracketIsTight(flow, capacity, FloorAmount(probe, floorTarget), r.delivered, Resolution(probe));
    }
  }

  lemma BracketIsTight(flow: Oracle, capacity: nat, bottom: Amount, delivered: Amount, resolution: Amount)
    requires AllOrNothing(flow, capacity) && Bracketed(flow, bottom, delivered, resolution)
    ensures bottom <= delivered <= capacity < delivered + resolution
  {
  }

  lemma {:induction false} RefineFindsSomething(flow: Oracle, lo: Amount, hi: Amount, delivered: Amount,
                                                resolution: Amount, probes: nat)
    requires delivered != 0
    ensures Refine(flow, lo, hi, delivered, resolution, probes) != Found(0)
    decreases probes
  {
    if !Close(lo, hi, resolution) && probes > 0 {
      var mid := Middle(lo, hi);
      match flow(mid)
      case None =>
      case Some(d) =>
        if d != 0 {
          RefineFindsSomething(flow, mid, hi, d, resolution, probes - 1);
        } else {
          RefineFindsSomething(flow, lo, mid, delivered, resolution, probes - 1);
        }
    }
  }

  /** No flow is found exactly when the capacity is below the floor. */
  lemma ZeroReportIff(flow: Oracle, capacity: Amount, probe: Amount, floorTarget: Amount, probes: nat)
    requires AllOrNothing(flow, capacity) && probe >= 1000
    ensures Probe(flow, probe, floorTarget, probes) == Found(0) <==> capacity < FloorAmount(probe, floorTarget)
  {
    hide Refine;
    var bottom := FloorAmount(probe, floorTarget);
    FloorIsSized(probe, floorTarget);
    RefineFindsSomething(flow, bottom, probe, bottom, Resolution(probe), probes);
  }

  function Flowing(capacity: Amount): Oracle {
    a => Some(if a <= capacity then a else 0)
  }

  /** When no flow is found, no capacity that the caller cares about is there. */
  ghost predicate ZeroReportsAreRight(probe: Amount, floorTarget: Amount, probes: nat) {
    forall flow: Oracle, capacity: Amount ::
      AllOrNothing(flow, capacity) && Probe(flow, probe, floorTarget, probes) == Found(0) ==>
        Haircut(capacity) < floorTarget
  }

  /** That holds exactly for the thresholds above what the resolution itself would
      report; below them the one-satoshi cushion of the floor hides some flow. */
  lemma ZeroReportsAreRightIff(probe: Amount, floorTarget: Amount, probes: nat)
    requires probe >= 1000
    ensures ZeroReportsAreRight(probe, floorTarget, probes) <==> floorTarget > Haircut(Resolution(probe))
  {
    hide Probe;
    ScaleIsCapped(floorTarget);
    ScaleSurvives(floorTarget);
    var bottom := FloorAmount(probe, floorTarget);
    if floorTarget > Haircut(Resolution(probe)) {
      AboveResolution(probe, floorTarget);
      forall flow: Oracle, capacity: Amount |
        AllOrNothing(flow, capacity) && Probe(flow, probe, floorTarget, probes) == Found(0)
        ensures Haircut(capacity) < floorTarget
      {
        ZeroReportIff(flow, capacity, probe, floorTarget, probes);
        HaircutMonotone(capacity, Resolution(probe));
      }
    } else {
      var capacity: Amount := bottom - 1;
      assert AllOrNothing(Flowing(capacity), capacity);
      ZeroReportIff(Flowing(capacity), capacity, probe, floorTarget, probes);
      HaircutMonotone(Resolution(probe), MAX_AMOUNT);
    }
  }

  lemma AboveResolution(probe: Amount, floorTarget: Amount)
    requires floorTarget > Haircut(Resolution(probe))
    ensures FloorAmount(probe, floorTarget) == Resolution(probe) + 1
  {
    ScaleIsCapped(floorTarget);
    ScaleSurvives(floorTarget);
    if Scale(floorTarget) < Resolution(probe) {
      HaircutMonotone(Scale(floorTarget), Resolution(probe));
    }
  }

  /** What is hidden is small: at most 986 msat more than the caller's threshold. */
  lemma MissedFlowIsSmall(flow: Oracle, capacity: Amount, probe: Amount, floorTarget: Amount, probes: nat)
    requires AllOrNothing(flow, capacity) && floorTarget > 0 && probe >= 1000
    requires Probe(flow, probe, floorTarget, probes) == Found(0)
    ensures Haircut(capacity) < floorTarget + 987
  {
    ZeroReportIff(flow, capacity, probe, floorTarget, probes);
    ScaleSurvives(floorTarget);
    assert FloorAmount(probe, floorTarget) <= Scale(floorTarget) + 1;
    HaircutMonotone(capacity, Scale(floorTarget));
  }

  /** And that much can be lost: a capacity above the threshold after its haircut is
      reported as no flow. */
  lemma MissedFlowExample(flow: Oracle, probes: nat)
    requires AllOrNothing(flow, 2_015)
    ensures Haircut(2_015) >= 1_000
    ensures Probe(flow, 1_000_000, 1_000, probes) == Found(0)
  {
    assert FloorAmount(1_000_000, 1_000) == 2_016;
  }

  // --------------------------------------------------- where it does not finish

  /** With a ceiling below 32 msat the resolution is zero, and a bracket of one msat
      is probed at its lower end for ever. */
  lemma {:induction false} ZeroResolutionDiverges(flow: Oracle, lo: Amount, probes: nat)
    requires 0 < lo < MAX_AMOUNT / 2 && flow(lo) == Some(lo)
    ensures Refine(flow, lo, lo + 1, lo, 0, probes) == Unfinished
    decreases probes
  {
    assert Middle(lo, lo + 1) == lo;
    if probes > 0 {
      ZeroResolutionDiverges(flow, lo, probes - 1);
    }
  }

  /** Something flows at every amount below the ceiling, and nothing at it. */
  ghost predicate FlowsBelow(flow: Oracle, hi: Amount) {
    && flow(hi) == Some(0) && flow(0).Some?
    && forall a: Amount :: 0 < a < hi ==> flow(a).Some? && 0 < flow(a).value <= a
  }

  /** The search is not done, or a midpoint wrapped to zero, where nothing is
      delivered, and ended it too low. */
  ghost predicate Missed(flow: Oracle, r: Found, hi: Amount, resolution: Amount) {
    r.Unfinished? || (flow(0) == Some(0) && r.Found? && r.delivered + resolution < hi)
  }

  /** Where every midpoint, wrapped or not, stays a resolution below the ceiling, the
      search never gets there, however many probes it is given. */
  lemma {:induction false} WrappedMiddleDiverges(flow: Oracle, lo: Amount, hi: Amount, delivered: Amount,
                                                 resolution: Amount, probes: nat)
    requires FlowsBelow(flow, hi) && 2 * hi > TWO64 + 2 * resolution && !Close(lo, hi, resolution)
    requires resolution <= hi / 32 && (flow(0) == Some(0) ==> delivered <= lo)
    ensures Missed(flow, Refine(flow, lo, hi, delivered, resolution, probes), hi, resolution)
    decreases probes
  {
    if probes > 0 {
      var mid := Middle(lo, hi);
      MiddleStaysLow(lo, hi, resolution);
      if flow(mid).value != 0 {
        WrappedMiddleDiverges(flow, mid, hi, flow(mid).value, resolution, probes - 1);
      }
    }
  }

  lemma MiddleStaysLow(lo: Amount, hi: Amount, resolution: Amount)
    requires 2 * hi > TWO64 + 2 * resolution && resolution <= hi / 32 && lo < hi
    ensures Middle(lo, hi) < hi && !Close(Middle(lo, hi), hi, resolution)
  {
    if lo + hi < TWO64 {
      assert Wrap64(lo + hi) == lo + hi;
    } else {
      assert Wrap64(lo + hi) == lo + hi - TWO64;
    }
  }

  /** When k probes that all succeed are needed and the last midpoint wraps, neither k
      nor k + 1 are enough. */
  lemma {:induction false} LastMiddleWraps(flow: Oracle, lo: Amount, hi: Amount, delivered: Amount,
                                           resolution: Amount, k: nat, probes: nat)
    requires FlowsBelow(flow, hi) && 1 <= resolution <= hi / 32 && lo < hi && delivered <= lo
    requires k > 0 && hi - lo > Reach(k - 1, resolution) && !Unwrapped(lo, hi, k) && k <= probes <= k + 1
    ensures Missed(flow, Refine(flow, lo, hi, delivered, resolution, probes), hi, resolution)
    decreases k
  {
    ReachSign(k - 1, resolution);
    if 2 * hi > TWO64 + 2 * resolution {
      WrappedMiddleDiverges(flow, lo, hi, delivered, resolution, probes);
    } else if lo + hi >= TWO64 {
      if k > 1 {
        ReachSign(k - 2, resolution);
      }
      AfterTheWrap(flow, lo, hi, resolution, probes - 1);
    } else {
      ReachSign(k - 1, 2 * hi - TWO64);
      assert k > 1;
      assert Wrap64(lo + hi) == lo + hi;
      var mid := Middle(lo, hi);
      LastMiddleWraps(flow, mid, hi, flow(mid).value, resolution, k - 1, probes - 1);
    }
  }

  /** A wrapped midpoint falls so far back that one more probe cannot make up for it. */
  lemma AfterTheWrap(flow: Oracle, lo: Amount, hi: Amount, resolution: Amount, probes: nat)
    requires FlowsBelow(flow, hi) && resolution <= hi / 32 && lo < hi && lo + hi >= TWO64 && probes <= 1
    ensures var mid := Middle(lo, hi);
            mid < hi && Missed(flow, Refine(flow, mid, hi, flow(mid).value, resolution, probes), hi, resolution)
  {
    var mid := Middle(lo, hi);
    assert Wrap64(lo + hi) == lo + hi - TWO64;
    assert hi - mid > 8 * resolution;
    if probes == 1 {
      var next := Middle(mid, hi);
      if mid + hi >= TWO64 {
        assert Wrap64(mid + hi) == mid + hi - TWO64;
      } else {
        assert Wrap64(mid + hi) == mid + hi;
      }
      assert next < hi && hi - next > resolution;
    }
  }

  lemma ProbeMisses(flow: Oracle, probe: Amount, floorTarget: Amount, probes: nat)
    requires probe >= 1000 && !FiveMiddlesFit(probe, floorTarget) && 5 <= probes <= 6 && FlowsBelow(flow, probe)
    ensures Missed(flow, Probe(flow, probe, floorTarget, probes), probe, Resolution(probe))
  {
    hide Refine;
    var bottom := FloorAmount(probe, floorTarget);
    FloorIsSized(probe, floorTarget);
    FiveUnwrapped(probe, floorTarget);
    ReachFive(Resolution(probe));
    LastMiddleWraps(flow, bottom, probe, flow(bottom).value, Resolution(probe), 5, probes);
  }

  function AllBelow(hi: Amount): Oracle {
    a => Some(if a < hi then 1 else 0)
  }

  ghost predicate AlwaysFinishes(probe: Amount, floorTarget: Amount, probes: nat) {
    forall flow: Oracle :: !Probe(flow, probe, floorTarget, probes).Unfinished?
  }

  /** Five refining probes suffice for every oracle exactly on the ceilings none of
      whose five midpoints wraps, and a sixth does not help on any other. */
  lemma FinishesIff(probe: Amount, floorTarget: Amount, probes: nat)
    requires probe >= 1000 && 5 <= probes <= 6
    ensures AlwaysFinishes(probe, floorTarget, probes) <==> FiveMiddlesFit(probe, floorTarget)
  {
    hide Probe;
    if FiveMiddlesFit(probe, floorTarget) {
      forall flow: Oracle ensures !Probe(flow, probe, floorTarget, probes).Unfinished? {
        ProbeFinishes(flow, probe, floorTarget, probes);
      }
    } else {
      ProbeMisses(AllBelow(probe), probe, floorTarget, probes);
      assert Probe(AllBelow(probe), probe, floorTarget, probes).Unfinished?;
    }
  }

  ghost predicate AlwaysTight(probe: Amount, floorTarget: Amount, probes: nat) {
    forall flow: Oracle, capacity: nat :: AllOrNothing(flow, capacity) ==>
      IsTight(Probe(flow, probe, floorTarget, probes), capacity, probe, floorTarget)
  }

  /** Likewise the estimate is tight for every capacity exactly there. */
  lemma EstimateIsTightIff(probe: Amount, floorTarget: Amount, probes: nat)
    requires probe >= 1000 && 5 <= probes <= 6
    ensures AlwaysTight(probe, floorTarget, probes) <==> FiveMiddlesFit(probe, floorTarget)
  {
    hide Probe;
    if FiveMiddlesFit(probe, floorTarget) {
      forall flow: Oracle, capacity: nat | AllOrNothing(flow, capacity)
        ensures IsTight(Probe(flow, probe, floorTarget, probes), capacity, probe, floorTarget)
      {
        EstimateIsTight(flow, capacity, probe, floorTarget, probes);
      }
    } else {
      var capacity: Amount := probe - 1;
      FloorIsSized(probe, floorTarget);
      assert AllOrNothing(Flowing(capacity), capacity);
      ProbeMisses(Flowing(capacity), probe, floorTarget, probes);
      assert !IsTight(Probe(Flowing(capacity), probe, floorTarget, probes), capacity, probe, floorTarget);
    }
  }

  /** From about one resolution above half the 64-bit range, no number of probes is
      enough. */
  lemma HugeCeilingDiverges(flow: Oracle, probe: Amount, floorTarget: Amount, probes: nat)
    requires FlowsBelow(flow, probe) && flow(0) != Some(0) && 2 * probe > TWO64 + 2 * Resolution(probe)
    ensures Probe(flow, probe, floorTarget, probes) == Unfinished
  {
    var bottom := FloorAmount(probe, floorTarget);
    FloorIsSized(probe, floorTarget);
    WrappedMiddleDiverges(flow, bottom, probe, flow(bottom).value, Resolution(probe), probes);
  }

  // ------------------------------------------------------------------- the run

  class Run {
    var amount: Amount
    const probeAmount: Amount
    const floorTarget: Amount

    constructor (probeTarget: Amount, floorTarget: Amount)
      ensures amount == 0 && probeAmount == ProbeAmount(probeTarget) && this.floorTarget == floorTarget
      ensures probeAmount >= 1000
    {
      ProbeIsSized(probeTarget);
      amount := 0;
      probeAmount := if probeTarget > 0 then Scale(probeTarget) else DEFAULT_PROBE;
      this.floorTarget := floorTarget;
    }

    /** Dowse, and leave the reported amount in `amount`; it ends whenever some number
        of refining probes is enough. */
    method Dowse(flow: Oracle, ghost probes: nat)
      requires !Probe(flow, probeAmount, floorTarget, probes).Unfinished?
      modifies this
      ensures amount == Report(Probe(flow, probeAmount, floorTarget, probes))
    {
      amount := 0;
      var full := flow(probeAmount);
      if full.None? {
        return;
      }
      if full.value != 0 {
        FinishProbe(full.value);
        return;
      }
      var bottom := FloorAmount(probeAmount, floorTarget);
      var lo := flow(bottom);
      if lo.None? || lo.value == 0 {
        return;
      }
      var d := RefineBetween(flow, bottom, probeAmount, lo.value, Resolution(probeAmount), probes);
      if d.Some? {
        FinishProbe(d.value);
      }
    }

    method FinishProbe(delivered: Amount)
      modifies this
      ensures amount == Haircut(delivered)
    {
      amount := delivered * 197 / 200;
    }
  }

  /** The recursion of `refine`: it ends on every bracket on which some number of
      probes suffices, without counting them. */
  method RefineBetween(flow: Oracle, lo: Amount, hi: Amount, delivered: Amount, resolution: Amount, ghost probes: nat)
    returns (d: Option<Amount>)
    requires !Refine(flow, lo, hi, delivered, resolution, probes).Unfinished?
    ensures var r := Refine(flow, lo, hi, delivered, resolution, probes);
            d == if r.Found? then Some(r.delivered) else None
    decreases probes
  {
    if hi <= lo || hi - lo <= resolution {
      return Some(delivered);
    }
    var mid := Middle(lo, hi);
    var answer := flow(mid);
    if answer.None? {
      return None;
    }
    if answer.value != 0 {
      d := RefineBetween(flow, mid, hi, answer.value, resolution, probes - 1);
    } else {
      d := RefineBetween(flow, lo, mid, delivered, resolution, probes - 1);
    }
  }
}
