/**
 * The personal limits calculator: from a person's age, sex, body size,
 * activity level and five health flags to an estimated energy requirement
 * (EER) and soft/hard daily limits for sugar, sodium and saturated fat,
 * plus a trans-fat limit.
 *
 * Arithmetic is exact (`real`); the constants are short decimals, so every
 * literal below is the exact value the source writes. `round(x, 2)` is the
 * abstract `round2` of module Rounding. Dates are day numbers and "today"
 * is a parameter.
 */
module LimitsEngine {
  import opened Wrappers
  import opened Rounding

  datatype Sex = Male | Female | Other
  datatype ActivityLevel = Sedentary | Light | Active | VeryActive

  const KCAL_PER_G_CARB: real := 4.0
  const KCAL_PER_G_FAT: real := 9.0
  const BASE_SODIUM_HARD_MG: real := 2000.0
  const BASE_SODIUM_SOFT_MG: real := 1500.0
  const DAYS_PER_YEAR: real := 365.25
  const EER_MIN: real := 1000.0
  const EER_MAX: real := 3500.0

  /** The inputs of `compute_personal_limits`; `dateOfBirth` is a day number. */
  datatype Attributes = Attributes(
    dateOfBirth: int,
    sex: Sex,
    heightCm: Option<real>,
    weightKg: Option<real>,
    activityLevel: ActivityLevel,
    hasHypertension: bool,
    hasDiabetes: bool,
    hasHeartDisease: bool,
    hasKidneyDisease: bool,
    isPregnant: bool)

  /** The diagnostic flag set packaged with the limits. */
  datatype Flags = Flags(
    isChild: bool,
    riskGlucose: bool,
    riskCvd: bool,
    riskHypertension: bool,
    riskPregnancy: bool,
    bmi: real,
    ageYears: int)

  datatype PersonalLimits = PersonalLimits(
    eerKcal: real,
    sugarSoftG: real,
    sugarHardG: real,
    sodiumSoftMg: real,
    sodiumHardMg: real,
    satfatSoftG: real,
    satfatHardG: real,
    transfatHardG: real,
    flags: Flags)

  /**
   * What the request schemas guarantee before the engine is called: height
   * in [50, 250] cm and weight in [10, 300] kg when given. The date of birth
   * is not bounded: not every caller validates it, and a stored one ages.
   */
  predicate ValidAttributes(a: Attributes)
  {
    && (a.heightCm.Some? ==> 50.0 <= a.heightCm.value <= 250.0)
    && (a.weightKg.Some? ==> 10.0 <= a.weightKg.value <= 300.0)
  }

  function Min(x: real, y: real): real { if x <= y then x else y }
  function Max(x: real, y: real): real { if x >= y then x else y }

  /**
   * `int(days / 365.25)`: the quotient truncated toward zero. For integer
   * days, days / 365.25 == 4 * days / 1461.
   */
  function CalculateAge(dateOfBirth: int, today: int): (age: int)
    ensures today >= dateOfBirth ==>
      0 <= age && age as real <= (today - dateOfBirth) as real / DAYS_PER_YEAR < (age + 1) as real
    ensures today < dateOfBirth ==>
      age <= 0 && (age - 1) as real < (today - dateOfBirth) as real / DAYS_PER_YEAR <= age as real
  {
    var days := today - dateOfBirth;
    if days >= 0 then (4 * days) / 1461 else -((-4 * days) / 1461)
  }

  /** Population default height, used only when no height is given. */
  function DefaultHeight(ageYears: int, sex: Sex): (h: real)
    ensures 50.0 <= h <= 250.0
  {
    if ageYears >= 18 then (if sex == Male then 165.0 else 158.0)
    else if ageYears >= 14 then (if sex == Male then 160.0 else 155.0)
    else 140.0
  }

  /** Population default weight, used only when no weight is given. */
  function DefaultWeight(ageYears: int, sex: Sex): (w: real)
    ensures 10.0 <= w <= 300.0
  {
    if ageYears >= 18 then (if sex == Male then 65.0 else 55.0)
    else if ageYears >= 14 then (if sex == Male then 58.0 else 52.0)
    else 35.0
  }

  /**
   * The physical-activity coefficient table, keyed by sex and activity level.
   * The table has rows for "male" and "female" only; every other sex takes
   * the explicit fallback 1.0 (the source's `.get(sex, {}).get(level, 1.0)`).
   */
  function PaCoefficient(sex: Sex, level: ActivityLevel): (pa: real)
    ensures 1.0 <= pa <= 1.48
    ensures sex == Other ==> pa == 1.0
    ensures level == Sedentary ==> pa == 1.0
  {
    match sex
    case Male =>
      (match level
       case Sedentary => 1.00
       case Light => 1.11
       case Active => 1.25
       case VeryActive => 1.48)
    case Female =>
      (match level
       case Sedentary => 1.00
       case Light => 1.12
       case Active => 1.27
       case VeryActive => 1.45)
    case Other => 1.0
  }

  /** The adult EER formulas; every sex other than male takes the female one. */
  function EerAdult(ageYears: int, sex: Sex, heightM: real, weightKg: real, pa: real): real
  {
    if sex == Male then 662.0 - 9.53 * ageYears as real + pa * (15.91 * weightKg + 539.6 * heightM)
    else 354.0 - 6.91 * ageYears as real + pa * (9.36 * weightKg + 726.0 * heightM)
  }

  /**
   * The adult formulas grow with weight, height and the activity coefficient
   * and shrink with age, for both sexes.
   */
  lemma EerAdultMonotone(
    age1: int, age2: int, sex: Sex, h1: real, h2: real, w1: real, w2: real, pa1: real, pa2: real)
    requires age2 <= age1 && 0.0 <= h1 <= h2 && 0.0 <= w1 <= w2 && 0.0 <= pa1 <= pa2
    ensures EerAdult(age1, sex, h1, w1, pa1) <= EerAdult(age2, sex, h2, w2, pa2)
  {
    var body1 := if sex == Male then 15.91 * w1 + 539.6 * h1 else 9.36 * w1 + 726.0 * h1;
    var body2 := if sex == Male then 15.91 * w2 + 539.6 * h2 else 9.36 * w2 + 726.0 * h2;
    var base1 := if sex == Male then 662.0 - 9.53 * age1 as real else 354.0 - 6.91 * age1 as real;
    var base2 := if sex == Male then 662.0 - 9.53 * age2 as real else 354.0 - 6.91 * age2 as real;
    assert EerAdult(age1, sex, h1, w1, pa1) == base1 + pa1 * body1;
    assert EerAdult(age2, sex, h2, w2, pa2) == base2 + pa2 * body2;
    assert base1 <= base2;
    ProductMonotone(pa1, pa2, body1, body2);
  }

  lemma ProductMonotone(x1: real, x2: real, y1: real, y2: real)
    requires 0.0 <= x1 <= x2 && 0.0 <= y1 <= y2
    ensures x1 * y1 <= x2 * y2
  {
    assert x1 * y1 <= x2 * y1;
    assert x2 * y1 <= x2 * y2;
  }

  predicate IsActive(level: ActivityLevel)
  {
    level == Active || level == VeryActive
  }

  /** The child bracket table: age band x sex x (active or not). */
  function EerChild(ageYears: int, sex: Sex, level: ActivityLevel): (eer: real)
    ensures eer in {1100.0, 1200.0, 1300.0, 1400.0, 1500.0, 1600.0, 1700.0, 1800.0}
    ensures !(3 <= ageYears <= 13) ==> eer == 1400.0
  {
    if 3 <= ageYears <= 8 then
      if sex == Male then (if IsActive(level) then 1400.0 else 1200.0)
      else (if IsActive(level) then 1300.0 else 1100.0)
    else if 9 <= ageYears <= 13 then
      if sex == Male then (if IsActive(level) then 1800.0 else 1600.0)
      else (if IsActive(level) then 1700.0 else 1500.0)
    else 1400.0
  }

  /** The EER before the pregnancy supplement and the clamp. */
  function BaseEer(ageYears: int, sex: Sex, heightM: real, weightKg: real, level: ActivityLevel): real
  {
    var isChild := ageYears < 18;
    if isChild && ageYears < 14 then EerChild(ageYears, sex, level)
    else EerAdult(ageYears, sex, heightM, weightKg, PaCoefficient(sex, level))
  }

  /** `max(1000, min(eer, 3500))` */
  function ClampEer(eer: real): (r: real)
    ensures EER_MIN <= r <= EER_MAX
    ensures EER_MIN <= eer <= EER_MAX ==> r == eer
  {
    Max(EER_MIN, Min(eer, EER_MAX))
  }

  function EffectiveHeightCm(a: Attributes, ageYears: int): real
  {
    if a.heightCm.None? then DefaultHeight(ageYears, a.sex) else a.heightCm.value
  }

  function EffectiveWeightKg(a: Attributes, ageYears: int): real
  {
    if a.weightKg.None? then DefaultWeight(ageYears, a.sex) else a.weightKg.value
  }

  /** `weight_kg / (height_m ** 2)`; the schema's height bound keeps the divisor positive. */
  function Bmi(heightCm: real, weightKg: real): (bmi: real)
    requires heightCm >= 50.0
    ensures bmi * ((heightCm / 100.0) * (heightCm / 100.0)) == weightKg
    ensures weightKg > 0.0 ==> bmi > 0.0
  {
    var heightM := heightCm / 100.0;
    assert heightM * heightM >= 0.25 by { assert heightM >= 0.5; }
    weightKg / (heightM * heightM)
  }

  /** The BMI of the height and weight in effect once the defaults for the age are filled in. */
  function EffectiveBmi(a: Attributes, ageYears: int): real
    requires ValidAttributes(a)
  {
    Bmi(EffectiveHeightCm(a, ageYears), EffectiveWeightKg(a, ageYears))
  }

  /** The EER after the pregnancy supplement (+340 kcal) and the clamp. */
  function Eer(ageYears: int, sex: Sex, heightM: real, weightKg: real, level: ActivityLevel, pregnant: bool): (eer: real)
    ensures EER_MIN <= eer <= EER_MAX
  {
    var base := BaseEer(ageYears, sex, heightM, weightKg, level);
    ClampEer(if pregnant then base + 340.0 else base)
  }

  /** A soft/hard pair of daily limits for one nutrient. */
  datatype SoftHard = SoftHard(soft: real, hard: real)

  /** Sugar: 7.5% / 10% of the EER, or 5% / 5% under glucose risk, at 4 kcal per gram. */
  function SugarLimits(eer: real, riskGlucose: bool): (r: SoftHard)
    requires EER_MIN <= eer
    ensures 0.0 < r.soft <= r.hard
    ensures r.soft >= eer * 0.05 / KCAL_PER_G_CARB
  {
    var pctHard := if riskGlucose then 0.05 else 0.10;
    var pctSoft := if riskGlucose then 0.05 else 0.075;
    SoftHard(eer * pctSoft / KCAL_PER_G_CARB, eer * pctHard / KCAL_PER_G_CARB)
  }

  /**
   * Sodium: 1500 / 2000 mg for non-children, scaled by
   * `max(0.5, min(eer / 2000, 1))` for children; under hypertension or
   * cardiovascular risk, non-children get 1200 / 1500 mg and children 75% of
   * their scaled baseline.
   */
  function SodiumLimits(eer: real, isChild: bool, risk: bool): (r: SoftHard)
    requires EER_MIN <= eer
    ensures 0.0 < r.soft <= r.hard
    ensures r.soft >= 562.5
  {
    var factor := Max(0.5, Min(eer / 2000.0, 1.0));
    var baseHard := if isChild then BASE_SODIUM_HARD_MG * factor else BASE_SODIUM_HARD_MG;
    var baseSoft := if isChild then BASE_SODIUM_SOFT_MG * factor else BASE_SODIUM_SOFT_MG;
    if risk then
      if !isChild then SoftHard(1200.0, 1500.0) else SoftHard(baseSoft * 0.75, baseHard * 0.75)
    else SoftHard(baseSoft, baseHard)
  }

  /** Saturated fat: 8% / 10% of the EER, or 6% / 7% under risk, at 9 kcal per gram. */
  function SatFatLimits(eer: real, risk: bool): (r: SoftHard)
    requires EER_MIN <= eer
    ensures 0.0 < r.soft <= r.hard
    ensures r.soft >= eer * 0.06 / KCAL_PER_G_FAT
  {
    var pctHard := if risk then 0.07 else 0.10;
    var pctSoft := if risk then 0.06 else 0.08;
    SoftHard(eer * pctSoft / KCAL_PER_G_FAT, eer * pctHard / KCAL_PER_G_FAT)
  }

  /**
   * `compute_personal_limits` before the final `round(·, 2)` of every value.
   */
  function RawLimits(a: Attributes, today: int): (r: PersonalLimits)
    requires ValidAttributes(a)
    ensures EER_MIN <= r.eerKcal <= EER_MAX
    ensures 0.0 < r.sugarSoftG <= r.sugarHardG
    ensures 0.0 < r.sodiumSoftMg <= r.sodiumHardMg
    ensures 0.0 < r.satfatSoftG <= r.satfatHardG
    ensures r.sugarSoftG >= 12.5 && r.sodiumSoftMg >= 562.5 && r.satfatSoftG >= 6.0 && r.transfatHardG >= 1.0
    ensures r.flags.ageYears == CalculateAge(a.dateOfBirth, today)
    ensures today >= a.dateOfBirth ==> r.flags.ageYears >= 0
    ensures r.flags.isChild <==> r.flags.ageYears < 18
    ensures r.flags.bmi == EffectiveBmi(a, r.flags.ageYears)
    ensures r.flags.riskGlucose <==> a.hasDiabetes || r.flags.bmi >= 30.0
    ensures r.flags.riskCvd <==> a.hasHeartDisease || a.hasDiabetes
    ensures r.flags.riskHypertension <==> a.hasHypertension || a.hasKidneyDisease
    ensures r.flags.riskPregnancy <==> a.isPregnant
  {
    var ageYears := CalculateAge(a.dateOfBirth, today);
    var heightCm := EffectiveHeightCm(a, ageYears);
    var weightKg := EffectiveWeightKg(a, ageYears);
    var bmi := Bmi(heightCm, weightKg);

    var isChild := ageYears < 18;
    var riskGlucose := a.hasDiabetes || bmi >= 30.0;
    var riskCvd := a.hasHeartDisease || a.hasDiabetes;
    var riskHypertension := a.hasHypertension || a.hasKidneyDisease;
    var riskPregnancy := a.isPregnant;

    var eer := Eer(ageYears, a.sex, heightCm / 100.0, weightKg, a.activityLevel, riskPregnancy);
    var sugar := SugarLimits(eer, riskGlucose);
    var sodium := SodiumLimits(eer, isChild, riskHypertension || riskCvd);
    var satfat := SatFatLimits(eer, riskCvd || riskGlucose);
    var transfatHard := eer * 0.01 / KCAL_PER_G_FAT;

    PersonalLimits(
      eer, sugar.soft, sugar.hard, sodium.soft, sodium.hard, satfat.soft, satfat.hard, transfatHard,
      Flags(isChild, riskGlucose, riskCvd, riskHypertension, riskPregnancy, bmi, ageYears))
  }

  /**
   * Every value of the record passed through `round(·, 2)`. A rounding that
   * is monotone keeps each soft limit at most its hard limit, keeps any whole
   * lower bound, and the flags other than the BMI are copied as they are.
   */
  function RoundLimits(r: PersonalLimits, round2: real -> real): (rounded: PersonalLimits)
    ensures rounded.flags.(bmi := r.flags.bmi) == r.flags
    ensures IsRounding2(round2) ==>
      && (r.sugarSoftG <= r.sugarHardG ==> rounded.sugarSoftG <= rounded.sugarHardG)
      && (r.sodiumSoftMg <= r.sodiumHardMg ==> rounded.sodiumSoftMg <= rounded.sodiumHardMg)
      && (r.satfatSoftG <= r.satfatHardG ==> rounded.satfatSoftG <= rounded.satfatHardG)
      && (forall n: int :: Whole(n) <= r.eerKcal ==> Whole(n) <= rounded.eerKcal)
      && (forall n: int :: r.eerKcal <= Whole(n) ==> rounded.eerKcal <= Whole(n))
  {
    PersonalLimits(
      round2(r.eerKcal),
      round2(r.sugarSoftG), round2(r.sugarHardG),
      round2(r.sodiumSoftMg), round2(r.sodiumHardMg),
      round2(r.satfatSoftG), round2(r.satfatHardG),
      round2(r.transfatHardG),
      r.flags.(bmi := round2(r.flags.bmi)))
  }

  /** `compute_personal_limits`, for a `round2` standing for `round(·, 2)`. */
  function ComputePersonalLimits(a: Attributes, today: int, round2: real -> real): (r: PersonalLimits)
    requires ValidAttributes(a)
    requires IsRounding2(round2)
    ensures EER_MIN <= r.eerKcal <= EER_MAX
    ensures 12.0 <= r.sugarSoftG <= r.sugarHardG
    ensures 562.0 <= r.sodiumSoftMg <= r.sodiumHardMg
    ensures 6.0 <= r.satfatSoftG <= r.satfatHardG
    ensures r.transfatHardG >= 1.0
    ensures r.flags.ageYears == CalculateAge(a.dateOfBirth, today)
    ensures r.flags.isChild <==> r.flags.ageYears < 18
    ensures r.flags.bmi == round2(EffectiveBmi(a, r.flags.ageYears))
    ensures r.flags.riskGlucose <==> a.hasDiabetes || EffectiveBmi(a, r.flags.ageYears) >= 30.0
    ensures r.flags.riskGlucose && !a.hasDiabetes ==> r.flags.bmi >= 30.0
    ensures !r.flags.riskGlucose ==> r.flags.bmi <= 30.0
    ensures r.flags.riskCvd <==> a.hasHeartDisease || a.hasDiabetes
    ensures r.flags.riskHypertension <==> a.hasHypertension || a.hasKidneyDisease
    ensures r.flags.riskPregnancy <==> a.isPregnant
  {
    var raw := RawLimits(a, today);
    assert Whole(30) == 30.0;
    assert round2(EER_MIN) == EER_MIN && round2(EER_MAX) == EER_MAX by {
      assert EER_MIN == Whole(1000) && EER_MAX == Whole(3500);
    }
    assert round2(Whole(12)) <= round2(raw.sugarSoftG) && round2(Whole(562)) <= round2(raw.sodiumSoftMg);
    assert round2(Whole(6)) <= round2(raw.satfatSoftG) && round2(Whole(1)) <= round2(raw.transfatHardG);
    RoundLimits(raw, round2)
  }

  // ---------------------------------------------------------------------
  // Properties of the calculator
  // ---------------------------------------------------------------------

  /** Under glucose risk the sugar range collapses (hard == soft == 5% of EER / 4); otherwise hard > soft. */
  lemma SugarRangeCollapsesIffGlucoseRisk(a: Attributes, today: int)
    requires ValidAttributes(a)
    ensures var r := RawLimits(a, today);
      && (r.flags.riskGlucose <==> r.sugarHardG == r.sugarSoftG)
      && (r.flags.riskGlucose ==> r.sugarHardG == r.eerKcal * 0.05 / 4.0)
      && (!r.flags.riskGlucose ==> r.sugarHardG == r.eerKcal * 0.10 / 4.0)
  {
  }

  /** Non-children get exactly 1500/1200 mg under risk and 2000/1500 mg otherwise. */
  lemma AdultSodiumIsFixed(a: Attributes, today: int)
    requires ValidAttributes(a)
    ensures var r := RawLimits(a, today);
      !r.flags.isChild ==>
        if r.flags.riskHypertension || r.flags.riskCvd
        then r.sodiumHardMg == 1500.0 && r.sodiumSoftMg == 1200.0
        else r.sodiumHardMg == 2000.0 && r.sodiumSoftMg == 1500.0
  {
  }

  /**
   * Children get the baseline scaled by a factor in [0.5, 1], and 75% of that
   * under risk, so their sodium limits never exceed the adult 2000/1500 mg.
   */
  lemma ChildSodiumIsScaledDown(a: Attributes, today: int)
    requires ValidAttributes(a)
    ensures var r := RawLimits(a, today);
      r.flags.isChild ==>
        && 750.0 <= r.sodiumHardMg <= 2000.0
        && 562.5 <= r.sodiumSoftMg <= 1500.0
        && (r.flags.riskHypertension || r.flags.riskCvd ==> r.sodiumHardMg <= 1500.0 && r.sodiumSoftMg <= 1125.0)
  {
  }

  /** Saturated fat drops to 7% / 6% of the EER exactly when there is cardiovascular or glucose risk. */
  lemma SatFatTightensIffRisk(a: Attributes, today: int)
    requires ValidAttributes(a)
    ensures var r := RawLimits(a, today);
      && (r.flags.riskCvd || r.flags.riskGlucose <==> r.satfatHardG == r.eerKcal * 0.07 / 9.0)
      && (r.flags.riskCvd || r.flags.riskGlucose <==> r.satfatSoftG == r.eerKcal * 0.06 / 9.0)
  {
  }

  /**
   * Only ages below 14 use the bracket table: without pregnancy their EER is
   * one of the eight bracket values, and 1400 kcal below age 3.
   */
  lemma ChildBracketBelow14(a: Attributes, today: int)
    requires ValidAttributes(a)
    ensures var r := RawLimits(a, today);
      r.flags.ageYears < 14 && !a.isPregnant ==>
        && r.eerKcal in {1100.0, 1200.0, 1300.0, 1400.0, 1500.0, 1600.0, 1700.0, 1800.0}
        && (r.flags.ageYears < 3 ==> r.eerKcal == 1400.0)
  {
  }

  /** From age 14 the adult formula applies, while ages 14 to 17 still count as children. */
  lemma AdultFormulaFrom14(a: Attributes, today: int)
    requires ValidAttributes(a)
    ensures var r := RawLimits(a, today);
      var age := r.flags.ageYears;
      age >= 14 ==>
        && r.eerKcal == ClampEer(
             EerAdult(age, a.sex, EffectiveHeightCm(a, age) / 100.0, EffectiveWeightKg(a, age),
                      PaCoefficient(a.sex, a.activityLevel))
             + (if a.isPregnant then 340.0 else 0.0))
        && (r.flags.isChild <==> age < 18)
  {
  }

  /** Every sex other than male takes the female formula, the female brackets and (for "other") PA 1.0. */
  lemma NonMaleTakesFemaleBranches(sex: Sex, ageYears: int, heightM: real, weightKg: real, pa: real, level: ActivityLevel)
    requires sex != Male
    ensures EerAdult(ageYears, sex, heightM, weightKg, pa) == EerAdult(ageYears, Female, heightM, weightKg, pa)
    ensures EerChild(ageYears, sex, level) == EerChild(ageYears, Female, level)
  {
  }

  /**
   * The limits see the height and weight only through the values in effect
   * after the defaults are applied.
   */
  lemma RawLimitsSeeEffectiveBody(a1: Attributes, a2: Attributes, today: int)
    requires ValidAttributes(a1) && ValidAttributes(a2)
    requires a1.(heightCm := None, weightKg := None) == a2.(heightCm := None, weightKg := None)
    requires var age := CalculateAge(a1.dateOfBirth, today);
      EffectiveHeightCm(a1, age) == EffectiveHeightCm(a2, age) && EffectiveWeightKg(a1, age) == EffectiveWeightKg(a2, age)
    ensures RawLimits(a1, today) == RawLimits(a2, today)
  {
    assert a1.dateOfBirth == a2.dateOfBirth && a1.sex == a2.sex && a1.activityLevel == a2.activityLevel;
  }

  /**
   * Defaults stand in only for an absent value: omitting the height gives
   * the same limits as supplying the default height for that age and sex.
   */
  lemma DefaultHeightOnlyWhenAbsent(a: Attributes, today: int)
    requires ValidAttributes(a)
    ensures var age := CalculateAge(a.dateOfBirth, today);
      RawLimits(a.(heightCm := None), today) == RawLimits(a.(heightCm := Some(DefaultHeight(age, a.sex))), today)
  {
    var age := CalculateAge(a.dateOfBirth, today);
    RawLimitsSeeEffectiveBody(a.(heightCm := None), a.(heightCm := Some(DefaultHeight(age, a.sex))), today);
  }

  /** The same for the weight. */
  lemma DefaultWeightOnlyWhenAbsent(a: Attributes, today: int)
    requires ValidAttributes(a)
    ensures var age := CalculateAge(a.dateOfBirth, today);
      RawLimits(a.(weightKg := None), today) == RawLimits(a.(weightKg := Some(DefaultWeight(age, a.sex))), today)
  {
    var age := CalculateAge(a.dateOfBirth, today);
    RawLimitsSeeEffectiveBody(a.(weightKg := None), a.(weightKg := Some(DefaultWeight(age, a.sex))), today);
  }

  /** Children under 14 get 140 cm / 35 kg whatever their sex. */
  lemma ChildDefaultsIgnoreSex(ageYears: int, sex: Sex)
    requires ageYears < 14
    ensures DefaultHeight(ageYears, sex) == 140.0 && DefaultWeight(ageYears, sex) == 35.0
  {
  }

  /**
   * Male, 30 years, sedentary, 175 cm, 75 kg, no flags:
   * EER = 662 - 9.53 * 30 + 1.0 * (15.91 * 75 + 539.6 * 1.75) = 2513.65 kcal.
   */
  lemma WorkedExampleAdultMale()
    ensures var a := Attributes(0, Male, Some(175.0), Some(75.0), Sedentary, false, false, false, false, false);
      var r := RawLimits(a, 10958);
      && r.flags.ageYears == 30
      && r.eerKcal == 2513.65
      && r.sugarHardG == 62.84125
      && r.sodiumHardMg == 2000.0
      && r.satfatHardG == 251.365 / 9.0
  {
  }

  /** After rounding, the non-child sodium limits are still exactly 2000/1500 or 1500/1200 mg. */
  lemma RoundedAdultSodiumIsFixed(a: Attributes, today: int, round2: real -> real)
    requires ValidAttributes(a)
    requires IsRounding2(round2)
    ensures var r := ComputePersonalLimits(a, today, round2);
      !r.flags.isChild ==>
        if r.flags.riskHypertension || r.flags.riskCvd
        then r.sodiumHardMg == 1500.0 && r.sodiumSoftMg == 1200.0
        else r.sodiumHardMg == 2000.0 && r.sodiumSoftMg == 1500.0
  {
    AdultSodiumIsFixed(a, today);
    assert round2(Whole(1200)) == 1200.0 && round2(Whole(1500)) == 1500.0 && round2(Whole(2000)) == 2000.0;
  }
}
