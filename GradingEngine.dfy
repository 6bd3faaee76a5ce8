/**
 * The product grading engine: each of sugar, sodium and saturated fat is put
 * in a traffic-light zone against the person's soft/hard limits, and an
 * ordered first-match ladder over the zones, the NOVA group and the additive
 * count gives a letter grade A to D.
 */
module GradingEngine {
  import opened Wrappers
  import opened Rounding

  /** The four zones, ordered by severity. */
  datatype Zone = Green | Yellow | Orange | Red

  function Severity(z: Zone): nat
  {
    match z
    case Green => 0
    case Yellow => 1
    case Orange => 2
    case Red => 3
  }

  datatype Grade = A | B | C | D

  /** A is best, D is worst. */
  function Rank(g: Grade): nat
  {
    match g
    case A => 0
    case B => 1
    case C => 2
    case D => 3
  }

  /** `value / limit * 100`, or 0 when the limit is not positive. */
  function PctOf(value: real, limit: real): real
  {
    if limit > 0.0 then value / limit * 100.0 else 0.0
  }

  /**
   * `calculate_nutrient_zone`. A missing value is green; otherwise the
   * green/yellow boundary is read against the SOFT limit and the
   * yellow/orange/red boundaries against the HARD limit.
   */
  function CalculateNutrientZone(value: Option<real>, softLimit: real, hardLimit: real): (z: Zone)
    ensures value.None? ==> z == Green
    ensures softLimit <= 0.0 ==> z == Green
    ensures value.Some? && softLimit > 0.0 && hardLimit <= 0.0 ==>
      (z == Green <==> value.value < softLimit / 4.0) && (z != Green ==> z == Yellow)
  {
    if value.None? then Green
    else
      var pctOfHard := PctOf(value.value, hardLimit);
      var pctOfSoft := PctOf(value.value, softLimit);
      if pctOfSoft < 25.0 then Green
      else if pctOfHard < 50.0 then Yellow
      else if pctOfHard < 75.0 then Orange
      else Red
  }

  /** `zones.count(z)` */
  function Count(zones: seq<Zone>, z: Zone): (n: nat)
    ensures n <= |zones|
  {
    if zones == [] then 0 else (if zones[0] == z then 1 else 0) + Count(zones[1..], z)
  }

  /**
   * `calculate_grade`: the ordered ladder, first match wins. The fibre and
   * protein arguments are accepted and ignored, as in the source. The
   * ensures read the ladder grade by grade, in terms of the red count r, the
   * orange count o, ultra-processing (NOVA 4) and the additive count.
   */
  function CalculateGrade(
    sugarZone: Zone, sodiumZone: Zone, satfatZone: Zone,
    additiveCount: int, novaGroup: Option<int>,
    fiberG: Option<real>, proteinG: Option<real>): (g: Grade)
    ensures var r := Count([sugarZone, sodiumZone, satfatZone], Red);
      var o := Count([sugarZone, sodiumZone, satfatZone], Orange);
      var ultra := novaGroup == Some(4);
      && (g == D <==> r >= 2 || (r == 1 && (ultra || additiveCount >= 5)))
      && (g == C <==> (r == 1 && !ultra && additiveCount < 5) || (r == 0 && o >= 2))
      && (g == B <==> r == 0 && (o == 1 || (o == 0 && ultra && additiveCount >= 3)))
      && (g == A <==> r == 0 && o == 0 && !(ultra && additiveCount >= 3))
  {
    var zones := [sugarZone, sodiumZone, satfatZone];
    var redCount := Count(zones, Red);
    var orangeCount := Count(zones, Orange);
    var isUltraProcessed := novaGroup == Some(4);
    var highAdditive := additiveCount >= 5;
    if redCount >= 2 then D
    else if redCount >= 1 && (isUltraProcessed || highAdditive) then D
    else if redCount >= 1 || orangeCount >= 2 then C
    else if orangeCount >= 1 then B
    else if isUltraProcessed && additiveCount >= 3 then B
    else A
  }

  predicate IsDangerous(z: Zone)
  {
    z == Orange || z == Red
  }

  /** The `sum([1 for zone in zones if zone in [ORANGE, RED]])` count. */
  function CountDangerous(zones: seq<Zone>): (n: nat)
    ensures n <= |zones|
  {
    if zones == [] then 0 else (if IsDangerous(zones[0]) then 1 else 0) + CountDangerous(zones[1..])
  }

  /**
   * The percentage of the hard limit, guarded by Python truthiness: 0 when the
   * value is missing or 0 or the hard limit is 0. A negative hard limit is
   * truthy and is divided by.
   */
  function PctOfLimit(value: Option<real>, hardLimit: real): (pct: real)
    ensures value.None? || value == Some(0.0) || hardLimit == 0.0 ==> pct == 0.0
    ensures value.Some? && value.value != 0.0 && hardLimit != 0.0 ==> pct * hardLimit == value.value * 100.0
  {
    if value.Some? && value.value != 0.0 && hardLimit != 0.0 then value.value / hardLimit * 100.0 else 0.0
  }

  datatype GradingResult = GradingResult(
    grade: Grade,
    sugarZone: Zone,
    sodiumZone: Zone,
    satfatZone: Zone,
    dangerousNutrientsCount: nat,
    sugarPctOfLimit: real,
    sodiumPctOfLimit: real,
    satfatPctOfLimit: real,
    additiveCount: int,
    novaGroup: Option<int>)

  /** `grade_product`, for a `round2` standing for `round(·, 2)`. */
  function GradeProduct(
    sugarPerServing: Option<real>, sodiumPerServing: Option<real>, satfatPerServing: Option<real>,
    sugarSoftLimit: real, sugarHardLimit: real,
    sodiumSoftLimit: real, sodiumHardLimit: real,
    satfatSoftLimit: real, satfatHardLimit: real,
    additiveCount: int, novaGroup: Option<int>,
    fiberPerServing: Option<real>, proteinPerServing: Option<real>,
    round2: real -> real): (r: GradingResult)
    requires IsRounding2(round2)
    ensures r.sugarZone == CalculateNutrientZone(sugarPerServing, sugarSoftLimit, sugarHardLimit)
    ensures r.sodiumZone == CalculateNutrientZone(sodiumPerServing, sodiumSoftLimit, sodiumHardLimit)
    ensures r.satfatZone == CalculateNutrientZone(satfatPerServing, satfatSoftLimit, satfatHardLimit)
    ensures r.grade == CalculateGrade(
      r.sugarZone, r.sodiumZone, r.satfatZone, additiveCount, novaGroup, fiberPerServing, proteinPerServing)
    ensures r.dangerousNutrientsCount == CountDangerous([r.sugarZone, r.sodiumZone, r.satfatZone])
    ensures r.dangerousNutrientsCount ==
      Count([r.sugarZone, r.sodiumZone, r.satfatZone], Orange) + Count([r.sugarZone, r.sodiumZone, r.satfatZone], Red)
    ensures r.sugarPctOfLimit == round2(PctOfLimit(sugarPerServing, sugarHardLimit))
    ensures r.sodiumPctOfLimit == round2(PctOfLimit(sodiumPerServing, sodiumHardLimit))
    ensures r.satfatPctOfLimit == round2(PctOfLimit(satfatPerServing, satfatHardLimit))
    ensures r.dangerousNutrientsCount <= 3
    ensures r.dangerousNutrientsCount >= 1 ==> r.grade != A
    ensures r.additiveCount == additiveCount && r.novaGroup == novaGroup
    ensures sugarPerServing.None? ==> r.sugarZone == Green && r.sugarPctOfLimit == 0.0
    ensures sodiumPerServing.None? ==> r.sodiumZone == Green && r.sodiumPctOfLimit == 0.0
    ensures satfatPerServing.None? ==> r.satfatZone == Green && r.satfatPctOfLimit == 0.0
    ensures sugarPerServing == Some(0.0) || sugarHardLimit == 0.0 ==> r.sugarPctOfLimit == 0.0
    ensures sodiumPerServing == Some(0.0) || sodiumHardLimit == 0.0 ==> r.sodiumPctOfLimit == 0.0
    ensures satfatPerServing == Some(0.0) || satfatHardLimit == 0.0 ==> r.satfatPctOfLimit == 0.0
  {
    var sugarZone := CalculateNutrientZone(sugarPerServing, sugarSoftLimit, sugarHardLimit);
    var sodiumZone := CalculateNutrientZone(sodiumPerServing, sodiumSoftLimit, sodiumHardLimit);
    var satfatZone := CalculateNutrientZone(satfatPerServing, satfatSoftLimit, satfatHardLimit);
    var grade := CalculateGrade(
      sugarZone, sodiumZone, satfatZone, additiveCount, novaGroup, fiberPerServing, proteinPerServing);
    var dangerous := CountDangerous([sugarZone, sodiumZone, satfatZone]);
    DangerousIsOrangePlusRed([sugarZone, sodiumZone, satfatZone]);
    assert round2(0.0) == 0.0 by { assert Whole(0) == 0.0; }
    GradingResult(
      grade, sugarZone, sodiumZone, satfatZone, dangerous,
      round2(PctOfLimit(sugarPerServing, sugarHardLimit)),
      round2(PctOfLimit(sodiumPerServing, sodiumHardLimit)),
      round2(PctOfLimit(satfatPerServing, satfatHardLimit)),
      additiveCount, novaGroup)
  }

  // ---------------------------------------------------------------------
  // Properties of the zones
  // ---------------------------------------------------------------------

  /** Against a positive limit, a percentage threshold is a threshold on the value itself. */
  lemma PctBelowIff(value: real, limit: real, threshold: real)
    requires limit > 0.0
    ensures PctOf(value, limit) < threshold <==> value * 100.0 < threshold * limit
  {
    var q := value / limit;
    assert q * limit == value;
    if q * 100.0 < threshold {
      assert q * 100.0 * limit < threshold * limit;
    } else {
      assert q * 100.0 * limit >= threshold * limit;
    }
  }

  /**
   * For positive limits the zone ladder reads, in terms of the value:
   * green below a quarter of the soft limit; otherwise yellow below half the
   * hard limit, orange below three quarters of it, red from there on.
   */
  lemma ZoneThresholds(value: real, softLimit: real, hardLimit: real)
    requires softLimit > 0.0 && hardLimit > 0.0
    ensures var z := CalculateNutrientZone(Some(value), softLimit, hardLimit);
      && (z == Green <==> value < softLimit / 4.0)
      && (z == Yellow <==> value >= softLimit / 4.0 && value < hardLimit / 2.0)
      && (z == Orange <==> value >= softLimit / 4.0 && hardLimit / 2.0 <= value < hardLimit * 0.75)
      && (z == Red <==> value >= softLimit / 4.0 && value >= hardLimit * 0.75)
  {
    PctBelowIff(value, softLimit, 25.0);
    PctBelowIff(value, hardLimit, 50.0);
    PctBelowIff(value, hardLimit, 75.0);
  }

  /** With soft = 50 and hard = 100, the values 10, 13, 60 and 80 fall in the four zones in turn. */
  lemma ZoneBoundaryExamples()
    ensures CalculateNutrientZone(Some(10.0), 50.0, 100.0) == Green
    ensures CalculateNutrientZone(Some(13.0), 50.0, 100.0) == Yellow
    ensures CalculateNutrientZone(Some(60.0), 50.0, 100.0) == Orange
    ensures CalculateNutrientZone(Some(80.0), 50.0, 100.0) == Red
  {
    ZoneThresholds(10.0, 50.0, 100.0);
    ZoneThresholds(13.0, 50.0, 100.0);
    ZoneThresholds(60.0, 50.0, 100.0);
    ZoneThresholds(80.0, 50.0, 100.0);
  }

  /** A percentage of a fixed limit never decreases as the value grows. */
  lemma PctOfMonotone(v1: real, v2: real, limit: real)
    requires v1 <= v2
    ensures PctOf(v1, limit) <= PctOf(v2, limit)
  {
    if limit > 0.0 {
      var q1, q2 := v1 / limit, v2 / limit;
      assert q1 * limit == v1 && q2 * limit == v2;
      if q1 > q2 {
        assert q1 * limit > q2 * limit;
      }
    }
  }

  /** For any fixed limits, a larger value never lands in a less severe zone. */
  lemma ZoneMonotone(v1: real, v2: real, softLimit: real, hardLimit: real)
    requires v1 <= v2
    ensures Severity(CalculateNutrientZone(Some(v1), softLimit, hardLimit))
         <= Severity(CalculateNutrientZone(Some(v2), softLimit, hardLimit))
  {
    PctOfMonotone(v1, v2, softLimit);
    PctOfMonotone(v1, v2, hardLimit);
  }

  /** The caller's mapping of a 0 measurement to a missing one does not change the zone. */
  lemma ZeroMeasurementIsGreen(softLimit: real, hardLimit: real)
    ensures CalculateNutrientZone(Some(0.0), softLimit, hardLimit) == CalculateNutrientZone(None, softLimit, hardLimit)
  {
  }

  // ---------------------------------------------------------------------
  // Properties of the grade
  // ---------------------------------------------------------------------

  /** `zones.count(z)` is the multiplicity of z in the zones. */
  lemma {:induction false} CountIsMultiplicity(zones: seq<Zone>, z: Zone)
    ensures Count(zones, z) == multiset(zones)[z]
  {
    if zones != [] {
      CountIsMultiplicity(zones[1..], z);
      assert zones == [zones[0]] + zones[1..];
      assert multiset(zones) == multiset{zones[0]} + multiset(zones[1..]);
    }
  }

  /** The dangerous count is the number of orange zones plus the number of red ones. */
  lemma {:induction false} DangerousIsOrangePlusRed(zones: seq<Zone>)
    ensures CountDangerous(zones) == Count(zones, Orange) + Count(zones, Red)
  {
    if zones != [] {
      DangerousIsOrangePlusRed(zones[1..]);
    }
  }

  /** The grade sees the three zones only through their counts: any permutation gives the same grade. */
  lemma GradePermutationInvariant(
    z1: Zone, z2: Zone, z3: Zone, w1: Zone, w2: Zone, w3: Zone,
    additiveCount: int, novaGroup: Option<int>, fiberG: Option<real>, proteinG: Option<real>)
    requires multiset{z1, z2, z3} == multiset{w1, w2, w3}
    ensures CalculateGrade(z1, z2, z3, additiveCount, novaGroup, fiberG, proteinG)
         == CalculateGrade(w1, w2, w3, additiveCount, novaGroup, fiberG, proteinG)
  {
    var zs, ws := [z1, z2, z3], [w1, w2, w3];
    assert multiset(zs) == multiset(ws) by {
      assert multiset(zs) == multiset{z1, z2, z3};
      assert multiset(ws) == multiset{w1, w2, w3};
    }
    CountIsMultiplicity(zs, Red);
    CountIsMultiplicity(ws, Red);
    CountIsMultiplicity(zs, Orange);
    CountIsMultiplicity(ws, Orange);
    CountsDetermineGrade(z1, z2, z3, w1, w2, w3, additiveCount, novaGroup, fiberG, proteinG);
  }

  /** Two zone triples with the same red and orange counts get the same grade. */
  lemma CountsDetermineGrade(
    z1: Zone, z2: Zone, z3: Zone, w1: Zone, w2: Zone, w3: Zone,
    additiveCount: int, novaGroup: Option<int>, fiberG: Option<real>, proteinG: Option<real>)
    requires Count([z1, z2, z3], Red) == Count([w1, w2, w3], Red)
    requires Count([z1, z2, z3], Orange) == Count([w1, w2, w3], Orange)
    ensures CalculateGrade(z1, z2, z3, additiveCount, novaGroup, fiberG, proteinG)
         == CalculateGrade(w1, w2, w3, additiveCount, novaGroup, fiberG, proteinG)
  {
  }

  /** The fibre and protein arguments never influence the grade. */
  lemma GradeIgnoresFiberAndProtein(
    z1: Zone, z2: Zone, z3: Zone, additiveCount: int, novaGroup: Option<int>,
    fiber1: Option<real>, protein1: Option<real>, fiber2: Option<real>, protein2: Option<real>)
    ensures CalculateGrade(z1, z2, z3, additiveCount, novaGroup, fiber1, protein1)
         == CalculateGrade(z1, z2, z3, additiveCount, novaGroup, fiber2, protein2)
  {
  }

  /** The four sample verdicts of the ladder. */
  lemma GradeExamples()
    ensures CalculateGrade(Red, Red, Green, 0, Some(1), None, None) == D
    ensures CalculateGrade(Orange, Green, Green, 0, Some(1), None, None) == B
    ensures CalculateGrade(Green, Green, Green, 3, Some(4), None, None) == B
    ensures CalculateGrade(Green, Green, Green, 0, Some(1), None, None) == A
  {
  }

  /** Pointwise more severe zones have at least as many red and at least as many dangerous zones. */
  lemma {:induction false} CountsMonotone(zs: seq<Zone>, ws: seq<Zone>)
    requires |zs| == |ws|
    requires forall i :: 0 <= i < |zs| ==> Severity(zs[i]) <= Severity(ws[i])
    ensures Count(zs, Red) <= Count(ws, Red)
    ensures CountDangerous(zs) <= CountDangerous(ws)
  {
    if zs != [] {
      CountsMonotone(zs[1..], ws[1..]);
      assert Severity(zs[0]) <= Severity(ws[0]);
    }
  }

  /**
   * Worse zones (pointwise) and more additives never give a better grade.
   */
  lemma GradeMonotone(
    z1: Zone, z2: Zone, z3: Zone, w1: Zone, w2: Zone, w3: Zone,
    additives1: int, additives2: int, novaGroup: Option<int>,
    fiberG: Option<real>, proteinG: Option<real>)
    requires Severity(z1) <= Severity(w1) && Severity(z2) <= Severity(w2) && Severity(z3) <= Severity(w3)
    requires additives1 <= additives2
    ensures Rank(CalculateGrade(z1, z2, z3, additives1, novaGroup, fiberG, proteinG))
         <= Rank(CalculateGrade(w1, w2, w3, additives2, novaGroup, fiberG, proteinG))
  {
    var zs, ws := [z1, z2, z3], [w1, w2, w3];
    CountsMonotone(zs, ws);
    DangerousIsOrangePlusRed(zs);
    DangerousIsOrangePlusRed(ws);
    GradeMonotoneInCounts(z1, z2, z3, w1, w2, w3, additives1, additives2, novaGroup, fiberG, proteinG);
  }

  /** More red zones, more dangerous zones and more additives never give a better grade. */
  lemma GradeMonotoneInCounts(
    z1: Zone, z2: Zone, z3: Zone, w1: Zone, w2: Zone, w3: Zone,
    additives1: int, additives2: int, novaGroup: Option<int>,
    fiberG: Option<real>, proteinG: Option<real>)
    requires Count([z1, z2, z3], Red) <= Count([w1, w2, w3], Red)
    requires Count([z1, z2, z3], Red) + Count([z1, z2, z3], Orange)
          <= Count([w1, w2, w3], Red) + Count([w1, w2, w3], Orange)
    requires additives1 <= additives2
    ensures Rank(CalculateGrade(z1, z2, z3, additives1, novaGroup, fiberG, proteinG))
         <= Rank(CalculateGrade(w1, w2, w3, additives2, novaGroup, fiberG, proteinG))
  {
  }

  /** One or more orange or red zones rule out grade A. */
  lemma DangerousRulesOutA(
    z1: Zone, z2: Zone, z3: Zone, additiveCount: int, novaGroup: Option<int>,
    fiberG: Option<real>, proteinG: Option<real>)
    requires CountDangerous([z1, z2, z3]) >= 1
    ensures CalculateGrade(z1, z2, z3, additiveCount, novaGroup, fiberG, proteinG) != A
  {
    DangerousIsOrangePlusRed([z1, z2, z3]);
  }
}
