/**
 Bin ranges for a liquidity position: the widening that makes a position touch two bin arrays,
 and what it does to the single-sided deposit planned afterwards.
 */
module BinRange {
  import opened Bytes

  const BINS_PER_ARRAY: int := 70
  const MAX_WIDTH: int := 70

  /** Division that truncates toward zero, as the big-number library divides. */
  function TruncDiv(a: int, b: int): int
    requires b > 0
  {
    if a >= 0 then a / b else -(-a / b)
  }

  /** Index of the bin array holding a bin: truncated division, corrected below zero. */
  function BinArrayIndex(bin: int): int {
    var idx := TruncDiv(bin, BINS_PER_ARRAY);
    var mod := bin - idx * BINS_PER_ARRAY;
    if bin < 0 && mod != 0 then idx - 1 else idx
  }

  /** The correction makes it a floor: arrays tile the line, negative bins included. */
  lemma BinArrayIndexIsFloor(bin: int)
    ensures BINS_PER_ARRAY * BinArrayIndex(bin) <= bin < BINS_PER_ARRAY * (BinArrayIndex(bin) + 1)
  {
  }

  datatype Range = Range(lower: int, upper: int)

  function Width(r: Range): int {
    r.upper - r.lower + 1
  }

  predicate OneArray(r: Range) {
    BinArrayIndex(r.lower) == BinArrayIndex(r.upper)
  }

  /** All bins on the far side of the active one. */
  predicate Below(r: Range, active: int) { r.upper < active }
  predicate AboveActive(r: Range, active: int) { r.lower > active }

  /**
   A range inside one array is widened by one bin of the neighbouring array, downward when it
   lies below the active bin and upward otherwise, and trimmed on the other side to the cap.
   */
  function Normalized(active: int, r: Range): Range {
    if !OneArray(r) then r
    else if Below(r, active) then
      var lower := BinArrayIndex(r.lower) * BINS_PER_ARRAY - 1;
      Range(lower, if r.upper - lower + 1 > MAX_WIDTH then lower + MAX_WIDTH - 1 else r.upper)
    else
      var upper := (BinArrayIndex(r.upper) + 1) * BINS_PER_ARRAY;
      Range(if upper - r.lower + 1 > MAX_WIDTH then upper - MAX_WIDTH + 1 else r.lower, upper)
  }

  datatype PairConfig = PairConfig(range: Range, width: int, lowerArray: int, upperArray: int)

  /** The range arithmetic of useExistingPool; width defaults to 20 and the range to one around active. */
  method UseExistingPool(activeBin: int, widthArg: Option<int>, lowerArg: Option<int>) returns (c: PairConfig)
    ensures
      var width := if widthArg.Some? then widthArg.value else 20;
      var lower := if lowerArg.Some? then lowerArg.value else activeBin - width / 2;
      && c.range == Normalized(activeBin, Range(lower, lower + width - 1))
      && c.width == Width(c.range)
      && c.lowerArray == BinArrayIndex(c.range.lower)
      && c.upperArray == BinArrayIndex(c.range.upper)
  {
    var width := if widthArg.Some? then widthArg.value else 20;
    var lowerBinId := if lowerArg.Some? then lowerArg.value else activeBin - width / 2;
    var upperBinId := lowerBinId + width - 1;
    ghost var requested := Range(lowerBinId, upperBinId);
    var lowerArrayIdx := BinArrayIndex(lowerBinId);
    var upperArrayIdx := BinArrayIndex(upperBinId);
    if lowerArrayIdx == upperArrayIdx {
      var aboveActive := lowerBinId > activeBin;
      var belowActive := upperBinId < activeBin;
      if belowActive {
        lowerBinId := lowerArrayIdx * 70 - 1;
        if upperBinId - lowerBinId + 1 > MAX_WIDTH {
          upperBinId := lowerBinId + MAX_WIDTH - 1;
        }
        lowerArrayIdx := BinArrayIndex(lowerBinId);
        upperArrayIdx := BinArrayIndex(upperBinId);
      } else if aboveActive {
        upperBinId := (upperArrayIdx + 1) * 70;
        if upperBinId - lowerBinId + 1 > MAX_WIDTH {
          lowerBinId := upperBinId - MAX_WIDTH + 1;
        }
        lowerArrayIdx := BinArrayIndex(lowerBinId);
        upperArrayIdx := BinArrayIndex(upperBinId);
      } else {
        upperBinId := (upperArrayIdx + 1) * 70;
        if upperBinId - lowerBinId + 1 > MAX_WIDTH {
          lowerBinId := upperBinId - MAX_WIDTH + 1;
        }
        lowerArrayIdx := BinArrayIndex(lowerBinId);
        upperArrayIdx := BinArrayIndex(upperBinId);
      }
    }
    assert Range(lowerBinId, upperBinId) == Normalized(activeBin, requested);
    var adjustedWidth := upperBinId - lowerBinId + 1;
    return PairConfig(Range(lowerBinId, upperBinId), adjustedWidth, lowerArrayIdx, upperArrayIdx);
  }

  /** The result respects the cap exactly when the request did, and then touches two adjacent arrays. */
  lemma NormalizedFits(active: int, r: Range)
    requires Width(r) >= 1
    ensures 1 <= Width(Normalized(active, r))
    ensures Width(Normalized(active, r)) <= MAX_WIDTH <==> Width(r) <= MAX_WIDTH
    ensures Width(r) <= MAX_WIDTH ==>
      BinArrayIndex(Normalized(active, r).upper) == BinArrayIndex(Normalized(active, r).lower) + 1
  {
    BinArrayIndexIsFloor(r.lower);
    BinArrayIndexIsFloor(r.upper);
    BinArrayIndexIsFloor(Normalized(active, r).lower);
    BinArrayIndexIsFloor(Normalized(active, r).upper);
  }

  predicate InRange(b: int, r: Range) { r.lower <= b <= r.upper }

  /** The one requested bin that trimming can cost: the top of a full array below active, else the bottom. */
  predicate Trimmed(active: int, r: Range, b: int) {
    OneArray(r) && if Below(r, active) then b == r.upper && b % 70 == 69 else b == r.lower && b % 70 == 0
  }

  /** Every requested bin is kept except that one. */
  lemma DropsOnlyTheTrimmedBin(active: int, r: Range, b: int)
    requires InRange(b, r)
    ensures InRange(b, Normalized(active, r)) <==> !Trimmed(active, r, b)
  {
    BinArrayIndexIsFloor(r.lower);
    BinArrayIndexIsFloor(r.upper);
  }

  /** The first bin of the array next to the requested one: below it for a range below active, else above it. */
  function EdgeBin(active: int, r: Range): int {
    if Below(r, active) then BinArrayIndex(r.lower) * BINS_PER_ARRAY - 1
      else (BinArrayIndex(r.lower) + 1) * BINS_PER_ARRAY
  }

  /**
   What the widening does, bin by bin. The result holds every bin from the requested range to the
   edge bin, except the one that trimming can cost, and no other; only the edge bin is outside the
   requested array, and it is in the next one.
   */
  lemma WidensToTheEdge(active: int, r: Range, b: int)
    requires Width(r) >= 1 && OneArray(r)
    ensures var edge := EdgeBin(active, r);
      && (InRange(b, Normalized(active, r)) <==>
           (if Below(r, active) then edge <= b <= r.upper else r.lower <= b <= edge) && !Trimmed(active, r, b))
      && InRange(edge, Normalized(active, r))
      && (InRange(b, Normalized(active, r)) && BinArrayIndex(b) != BinArrayIndex(r.lower) ==> b == edge)
      && BinArrayIndex(edge) == BinArrayIndex(r.lower) + if Below(r, active) then -1 else 1
  {
    BinArrayIndexIsFloor(r.lower);
    BinArrayIndexIsFloor(r.upper);
    BinArrayIndexIsFloor(b);
    BinArrayIndexIsFloor(EdgeBin(active, r));
  }

  /** A range on one side of the active bin stays on that side. */
  lemma StaysOnItsSide(active: int, r: Range)
    requires Width(r) >= 1
    ensures Below(r, active) <==> Below(Normalized(active, r), active)
    ensures AboveActive(r, active) ==> AboveActive(Normalized(active, r), active)
  {
    BinArrayIndexIsFloor(r.lower);
    BinArrayIndexIsFloor(r.upper);
  }

  /** Feeding the result back changes nothing, wherever the active bin has moved meanwhile. */
  lemma NormalizedTwice(active: int, later: int, r: Range)
    requires Width(r) >= 1
    ensures Normalized(later, Normalized(active, r)) == Normalized(active, r)
  {
    BinArrayIndexIsFloor(r.lower);
    BinArrayIndexIsFloor(r.upper);
    BinArrayIndexIsFloor(Normalized(active, r).lower);
    BinArrayIndexIsFloor(Normalized(active, r).upper);
  }

  // ---- single-sided plan ----

  datatype Shape = Spot | Curve | BidAsk

  datatype Plan = Plan(amountX: int, amountY: int, strategyType: int, range: Range)

  datatype PlanResult = Planned(plan: Plan) | NotPositive | Unordered | EntirelyBelow | EntirelyAbove

  function StrategyOf(shape: Shape): int {
    match shape
    case Spot => 6
    case Curve => 7
    case BidAsk => 8
  }

  /** The on-chain strategies, in the order of their discriminants: three families of three shapes. */
  datatype Family = Balanced | OneSide | ImBalanced

  function Discriminant(family: Family, shape: Shape): int {
    var f := match family case Balanced => 0 case OneSide => 1 case ImBalanced => 2;
    var s := match shape case Spot => 0 case Curve => 1 case BidAsk => 2;
    3 * f + s
  }

  /** A deposit uses the imbalanced strategy of its shape, and of no other. */
  lemma StrategyIsImBalanced(shape: Shape, family: Family, other: Shape)
    ensures StrategyOf(shape) == Discriminant(ImBalanced, shape)
    ensures StrategyOf(shape) == Discriminant(family, other) <==> family == ImBalanced && other == shape
  {
  }

  function PlanSingleSidedSol(total: int, active: int, r: Range, shape: Shape, solIsTokenX: bool): PlanResult {
    if total <= 0 then NotPositive
    else if r.lower > r.upper then Unordered
    else if solIsTokenX && r.upper < active then EntirelyBelow
    else if !solIsTokenX && r.lower > active then EntirelyAbove
    else Planned(Plan(if solIsTokenX then total else 0, if solIsTokenX then 0 else total, StrategyOf(shape), r))
  }

  /** A plan puts the whole deposit on the SOL side, over a range with a bin on that side of active. */
  lemma PlannedHasSolBin(total: int, active: int, r: Range, shape: Shape, solIsTokenX: bool)
    ensures PlanSingleSidedSol(total, active, r, shape, solIsTokenX).Planned? <==>
      total > 0 && exists b :: InRange(b, r) && (if solIsTokenX then b >= active else b <= active)
    ensures PlanSingleSidedSol(total, active, r, shape, solIsTokenX).Planned? ==>
      var p := PlanSingleSidedSol(total, active, r, shape, solIsTokenX).plan;
      && p.amountX + p.amountY == total && (if solIsTokenX then p.amountY else p.amountX) == 0 && p.range == r
      && p.strategyType == Discriminant(ImBalanced, shape)
    ensures PlanSingleSidedSol(total, active, r, shape, solIsTokenX).NotPositive? <==> total <= 0
    ensures total > 0 && r.lower <= r.upper ==>
      && (PlanSingleSidedSol(total, active, r, shape, solIsTokenX).EntirelyBelow? <==> solIsTokenX && Below(r, active))
      && (PlanSingleSidedSol(total, active, r, shape, solIsTokenX).EntirelyAbove? <==>
           !solIsTokenX && AboveActive(r, active))
  {
    if r.lower <= r.upper {
      assert InRange(r.lower, r) && InRange(r.upper, r);
    }
  }

  /**
   Widening keeps the verdict of the plan, except in exactly one situation: SOL is token Y, the
   range fits one array, and it starts at the active bin on an array boundary, whose only
   SOL-side bin is then the one trimmed away.
   */
  lemma PlanVerdictKept(total: int, active: int, r: Range, shape: Shape, solIsTokenX: bool)
    requires Width(r) >= 1 && total > 0
    ensures
      var before := PlanSingleSidedSol(total, active, r, shape, solIsTokenX).Planned?;
      var after := PlanSingleSidedSol(total, active, Normalized(active, r), shape, solIsTokenX).Planned?;
      before != after <==> !solIsTokenX && OneArray(r) && r.lower == active && active % 70 == 0
  {
    BinArrayIndexIsFloor(r.lower);
    BinArrayIndexIsFloor(r.upper);
  }
}
