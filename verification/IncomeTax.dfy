/** Progressive schedules: a rate for each slice of an amount. */
module Slices {
  /** The part of `x` between `lo` and `hi`. */
  function Slice(x: real, lo: real, hi: real): real
    requires lo <= hi
  {
    if x <= lo then 0.0 else if x <= hi then x - lo else hi - lo
  }

  function Above(x: real, lo: real): real {
    if x <= lo then 0.0 else x - lo
  }
}

/** The deduction from salary income, by the year's gross salary. */
module SalaryDeduction {
  import opened Wrappers
  import opened Slices
  import opened TaxCalculator

  datatype NegativeAmount = NegativeAmount

  function Deduction(gross: real): int {
    Truncated(
      if gross <= 1_625_000.0 then 550_000.0
      else if gross <= 1_800_000.0 then gross * 0.40 - 100_000.0
      else if gross <= 3_600_000.0 then gross * 0.30 + 80_000.0
      else if gross <= 6_600_000.0 then gross * 0.20 + 440_000.0
      else if gross <= 8_500_000.0 then gross * 0.10 + 1_100_000.0
      else 1_950_000.0)
  }

  function Compute(gross: real): (r: Result<int, NegativeAmount>)
    ensures r.Err? <==> gross < 0.0
    ensures r.Ok? ==> 550_000 <= r.value <= 1_950_000
  {
    if gross < 0.0 then Err(NegativeAmount) else Ok(Deduction(gross))
  }

  /** The schedule behind the table: a fixed part, and shrinking shares of the slices above it. */
  function Schedule(gross: real): real {
    550_000.0
    + 0.40 * Slice(gross, 1_625_000.0, 1_800_000.0)
    + 0.30 * Slice(gross, 1_800_000.0, 3_600_000.0)
    + 0.20 * Slice(gross, 3_600_000.0, 6_600_000.0)
    + 0.10 * Slice(gross, 6_600_000.0, 8_500_000.0)
  }

  /** The table's lines meet at every threshold: it is the schedule, cut to a whole yen. */
  lemma TableIsSchedule(gross: real)
    ensures Deduction(gross) == Schedule(gross).Floor && 550_000 <= Deduction(gross) <= 1_950_000
  {
  }

  function SalaryIncome(gross: real): real { gross - Deduction(gross) as real }

  lemma ScheduleGrows(a: real, b: real)
    requires a <= b
    ensures Schedule(a) <= Schedule(b) <= Schedule(a) + 0.40 * (b - a)
  {
  }

  /** Whole yen of more pay never mean less income, nor a smaller deduction. */
  lemma MorePayMoreIncome(a: int, b: int)
    requires a <= b
    ensures Deduction(a as real) <= Deduction(b as real)
    ensures SalaryIncome(a as real) <= SalaryIncome(b as real)
  {
    TableIsSchedule(a as real);
    TableIsSchedule(b as real);
    ScheduleGrows(a as real, b as real);
    if a < b {
      FloorStep(Schedule(a as real), Schedule(b as real), b - a);
    }
  }

  lemma FloorStep(x: real, y: real, n: int)
    requires x <= y <= x + 0.40 * n as real && n >= 1
    ensures x.Floor <= y.Floor <= x.Floor + n
  {
  }

  /** Income is negative exactly below the fixed part of the deduction. */
  lemma NegativeIncomeExactlyWhen(gross: real)
    requires gross >= 0.0
    ensures SalaryIncome(gross) < 0.0 <==> gross < 550_000.0
  {
    TableIsSchedule(gross);
  }
}

/** Income tax on taxable income, and the deductions fixed by law. */
module IncomeTax {
  import opened Wrappers
  import opened Slices
  import opened TaxCalculator
  import opened SalaryDeduction

  /** The rate and the amount taken off in the quick formula, for an income cut to thousands. */
  function Bracket(income: real): (real, real) {
    if income <= 1_950_000.0 then (0.05, 0.0)
    else if income <= 3_300_000.0 then (0.10, 97_500.0)
    else if income <= 6_950_000.0 then (0.20, 427_500.0)
    else if income <= 9_000_000.0 then (0.23, 636_000.0)
    else if income <= 18_000_000.0 then (0.33, 1_536_000.0)
    else if income <= 40_000_000.0 then (0.40, 2_796_000.0)
    else (0.45, 4_796_000.0)
  }

  function Thousands(income: real): real { (income / 1000.0).Floor as real * 1000.0 }

  function Tax(income: real): int {
    var rounded := Thousands(income);
    var tax := Truncated(rounded * Bracket(rounded).0 - Bracket(rounded).1);
    if tax > 0 then tax else 0
  }

  function Compute(income: real): (r: Result<int, NegativeAmount>)
    ensures r.Err? <==> income < 0.0
    ensures r.Ok? ==> r.value >= 0
  {
    if income < 0.0 then Err(NegativeAmount) else Ok(Tax(income))
  }

  /** The law's definition: each slice of the income at its own rate. */
  function Marginal(income: real): real {
    0.05 * Slice(income, 0.0, 1_950_000.0)
    + 0.10 * Slice(income, 1_950_000.0, 3_300_000.0)
    + 0.20 * Slice(income, 3_300_000.0, 6_950_000.0)
    + 0.23 * Slice(income, 6_950_000.0, 9_000_000.0)
    + 0.33 * Slice(income, 9_000_000.0, 18_000_000.0)
    + 0.40 * Slice(income, 18_000_000.0, 40_000_000.0)
    + 0.45 * Above(income, 40_000_000.0)
  }

  /** Thousands of yen: the tax of each bracket is a whole number of tens. */
  function Tens(n: int): int {
    if n <= 1950 then 5 * n
    else if n <= 3300 then 10 * n - 9_750
    else if n <= 6950 then 20 * n - 42_750
    else if n <= 9000 then 23 * n - 63_600
    else if n <= 18000 then 33 * n - 153_600
    else if n <= 40000 then 40 * n - 279_600
    else 45 * n - 479_600
  }

  /** The quick formula is the tax slice by slice, to the yen: neither truncation nor the floor at zero ever acts. */
  lemma QuickFormulaIsMarginal(income: real)
    requires income >= 0.0
    ensures Tax(income) as real == Marginal(Thousands(income))
    ensures Tax(income) == 10 * Tens((income / 1000.0).Floor) >= 0
  {
    hide Marginal, Tens;
    var n := (income / 1000.0).Floor;
    assert n >= 0;
    InThousands(n);
    TaxInTens(Thousands(income), Tens(n));
  }

  lemma TaxInTens(rounded: real, tens: int)
    requires tens >= 0 && rounded * Bracket(rounded).0 - Bracket(rounded).1 == (10 * tens) as real
    ensures
      var tax := Truncated(rounded * Bracket(rounded).0 - Bracket(rounded).1);
      tax == 10 * tens
  {
    hide Bracket;
  }

  lemma InThousands(n: int)
    requires n >= 0
    ensures
      var income := n as real * 1000.0;
      && income * Bracket(income).0 - Bracket(income).1 == (10 * Tens(n)) as real == Marginal(income)
      && Tens(n) >= 0
  {
  }

  /** A higher income is never taxed less, and at most 45 yen in a hundred of the rise, thousands begun counting. */
  lemma TaxIsMonotone(a: real, b: real)
    requires 0.0 <= a <= b
    ensures Tax(a) <= Tax(b) && Tax(b) as real <= Tax(a) as real + 0.45 * (b - a + 1000.0)
  {
    QuickFormulaIsMarginal(a);
    QuickFormulaIsMarginal(b);
    var m, n := (a / 1000.0).Floor, (b / 1000.0).Floor;
    assert m <= n && (n - m) as real * 1000.0 <= b - a + 1000.0;
    TensGrow(m, n);
  }

  lemma TensGrow(m: int, n: int)
    requires 0 <= m <= n
    ensures 0 <= Tens(n) - Tens(m) <= 45 * (n - m)
  {
  }

  function BasicDeduction(totalIncome: real): Result<int, NegativeAmount> {
    if totalIncome < 0.0 then Err(NegativeAmount)
    else if totalIncome <= 24_000_000.0 then Ok(480_000)
    else if totalIncome <= 24_500_000.0 then Ok(320_000)
    else if totalIncome <= 25_000_000.0 then Ok(160_000)
    else Ok(0)
  }

  function DependentDeduction(dependents: int): Result<int, NegativeAmount> {
    if dependents < 0 then Err(NegativeAmount) else Ok(380_000 * dependents)
  }

  /** 160,000 for each of three thresholds that the income does not exceed. */
  lemma BasicDeductionSteps(income: real)
    ensures BasicDeduction(income).Ok? <==> income >= 0.0
    ensures BasicDeduction(income).Ok? ==>
      BasicDeduction(income).value == 160_000 * (
        (if income <= 24_000_000.0 then 1 else 0) + (if income <= 24_500_000.0 then 1 else 0)
        + (if income <= 25_000_000.0 then 1 else 0))
  {
  }

  /** Nothing without dependents, and as much again for each of them. */
  lemma EachDependentCounts(dependents: int)
    ensures DependentDeduction(dependents).Ok? <==> dependents >= 0
    ensures DependentDeduction(0) == Ok(0)
    ensures dependents >= 0 ==>
      DependentDeduction(dependents + 1).value == DependentDeduction(dependents).value + 380_000
  {
  }

  /** The basic deduction never grows with income, so income after it never shrinks. */
  lemma BasicDeductionShrinks(a: real, b: real)
    requires 0.0 <= a <= b
    ensures BasicDeduction(b).value <= BasicDeduction(a).value
  {
  }
}

/** Monthly withholding estimated from the annual tax, and its settlement at the end of the year. */
module Withholding {
  import opened Wrappers
  import opened TaxCalculator
  import opened SalaryDeduction
  import opened IncomeTax

  const RECONSTRUCTION := 1.021

  function NotNegative(x: real): real { if x < 0.0 then 0.0 else x }

  /** The income left to tax, once the deductions are known. */
  function TaxableIncome(gross: real, deductions: real): real {
    NotNegative(SalaryIncome(gross) - deductions)
  }

  /** Social insurance, basic deduction and dependents; a negative salary income has no basic deduction. */
  function Deductions(gross: real, socialInsurance: real, dependents: int): Result<real, NegativeAmount> {
    var basic, dependent := BasicDeduction(SalaryIncome(gross)), DependentDeduction(dependents);
    if gross < 0.0 || basic.Err? || dependent.Err? then Err(NegativeAmount)
    else Ok(socialInsurance + basic.value as real + dependent.value as real)
  }

  function AnnualTax(gross: real, socialInsurance: real, dependents: int): Result<real, NegativeAmount> {
    var deductions := Deductions(gross, socialInsurance, dependents);
    if deductions.Err? then Err(NegativeAmount)
    else Ok(Tax(TaxableIncome(gross, deductions.value)) as real * RECONSTRUCTION)
  }

  function EstimateMonthly(gross: real, socialInsurance: real, dependents: int): Result<int, NegativeAmount> {
    if gross < 0.0 || socialInsurance < 0.0 || dependents < 0 then Err(NegativeAmount)
    else if gross <= 0.0 then Ok(0)
    else
      var tax := AnnualTax(gross * 12.0, socialInsurance * 12.0, dependents);
      if tax.Err? then Err(NegativeAmount) else Ok(Truncated(tax.value / 12.0))
  }

  function EstimateBonus(
    gross: real, socialInsurance: real, bonus: real, bonusInsurance: real, dependents: int): Result<int, NegativeAmount>
  {
    if gross < 0.0 || socialInsurance < 0.0 || bonus < 0.0 || bonusInsurance < 0.0 || dependents < 0 then
      Err(NegativeAmount)
    else if bonus <= 0.0 then Ok(0)
    else
      var without := AnnualTax(gross * 12.0, socialInsurance * 12.0, dependents);
      var with := AnnualTax(gross * 12.0 + bonus, socialInsurance * 12.0 + bonusInsurance, dependents);
      if without.Err? || with.Err? then Err(NegativeAmount)
      else if with.value <= without.value then Ok(0)
      else Ok(Truncated(with.value - without.value))
  }

  datatype Settlement = Settlement(
    salaryDeduction: int, salaryIncome: real, taxable: real, calculated: int, adjusted: real, yearTax: int,
    refund: real, additional: real)

  /** Whole yen, cut to hundreds. */
  function Hundreds(tax: real): int { Truncated(tax) / 100 * 100 }

  function YearTax(adjusted: real): int { Hundreds(adjusted * RECONSTRUCTION) }

  function Settle(gross: real, deductions: real, withheld: real, housingCredit: real)
    : Result<Settlement, NegativeAmount>
  {
    if gross < 0.0 || deductions < 0.0 || withheld < 0.0 || housingCredit < 0.0 then Err(NegativeAmount)
    else
      var taxable := TaxableIncome(gross, deductions);
      var tax := Tax(taxable);
      var adjusted := NotNegative(tax as real - housingCredit);
      var yearTax := YearTax(adjusted);
      var difference := withheld - yearTax as real;
      Ok(Settlement(
        Deduction(gross), SalaryIncome(gross), taxable, tax, adjusted, yearTax,
        NotNegative(difference), NotNegative(-difference)))
  }

  // ----- Settling -----

  /** What was withheld, less the refund, plus what is collected, is the year's tax; never both at once. */
  lemma SettlementCloses(gross: real, deductions: real, withheld: real, housingCredit: real)
    requires Settle(gross, deductions, withheld, housingCredit).Ok?
    ensures
      var s := Settle(gross, deductions, withheld, housingCredit).value;
      && withheld - s.refund + s.additional == s.yearTax as real
      && (s.refund == 0.0 || s.additional == 0.0)
      && s.yearTax % 100 == 0 && 0 <= s.yearTax
      && s.yearTax as real <= s.adjusted * 1.021 < s.yearTax as real + 100.0
  {
    var s := Settle(gross, deductions, withheld, housingCredit).value;
    HundredsBelow(s.adjusted * RECONSTRUCTION);
  }

  /** What is settled: the tax on what the deductions leave, less the housing credit, neither below nothing. */
  lemma SettlementMeans(gross: real, deductions: real, withheld: real, housingCredit: real)
    ensures Settle(gross, deductions, withheld, housingCredit).Ok? <==>
      gross >= 0.0 && deductions >= 0.0 && withheld >= 0.0 && housingCredit >= 0.0
    ensures
      var r := Settle(gross, deductions, withheld, housingCredit);
      r.Ok? ==>
        var s := r.value;
        && s.salaryDeduction == Deduction(gross) && s.salaryIncome == gross - s.salaryDeduction as real
        && s.taxable == (if s.salaryIncome >= deductions then s.salaryIncome - deductions else 0.0)
        && s.calculated == Tax(s.taxable)
        && s.adjusted ==
             if s.calculated as real >= housingCredit then s.calculated as real - housingCredit else 0.0
  {
  }

  /** What is deducted for a year, and when that can be told. */
  lemma DeductionsMean(gross: real, socialInsurance: real, dependents: int)
    ensures Deductions(gross, socialInsurance, dependents).Ok? <==> gross >= 550_000.0 && dependents >= 0
    ensures Deductions(gross, socialInsurance, dependents).Ok? ==>
      Deductions(gross, socialInsurance, dependents).value
        == socialInsurance + BasicDeduction(gross - Deduction(gross) as real).value as real
           + 380_000.0 * dependents as real
  {
    if gross >= 0.0 {
      NegativeIncomeExactlyWhen(gross);
    }
  }

  /** The tax of a year: that of the income less the deductions, and 2.1 percent more. */
  lemma AnnualTaxMeans(gross: real, socialInsurance: real, dependents: int)
    ensures AnnualTax(gross, socialInsurance, dependents).Ok? <==> gross >= 550_000.0 && dependents >= 0
    ensures AnnualTax(gross, socialInsurance, dependents).Ok? ==>
      var open := gross - Deduction(gross) as real - Deductions(gross, socialInsurance, dependents).value;
      AnnualTax(gross, socialInsurance, dependents).value
        == 1.021 * Tax(if open >= 0.0 then open else 0.0) as real
  {
    DeductionsMean(gross, socialInsurance, dependents);
    hide Tax, Deductions, Deduction;
  }

  /** The month's estimate is the whole yen of a twelfth of that tax, nothing without pay. */
  lemma MonthlyMeans(gross: real, socialInsurance: real, dependents: int)
    ensures EstimateMonthly(gross, socialInsurance, dependents).Ok? <==>
      gross >= 0.0 && socialInsurance >= 0.0 && dependents >= 0 && (gross == 0.0 || gross * 12.0 >= 550_000.0)
    ensures EstimateMonthly(gross, socialInsurance, dependents).Ok? ==>
      var month := EstimateMonthly(gross, socialInsurance, dependents).value;
      if gross == 0.0 then month == 0
      else
        var year := AnnualTax(gross * 12.0, socialInsurance * 12.0, dependents).value;
        month >= 0 && (12 * month) as real <= year < (12 * month) as real + 12.0
  {
    AnnualTaxMeans(gross * 12.0, socialInsurance * 12.0, dependents);
    hide AnnualTax;
    if EstimateMonthly(gross, socialInsurance, dependents).Ok? && gross != 0.0 {
      AnnualTaxIsNotNegative(gross * 12.0, socialInsurance * 12.0, dependents);
      TwelveMonths(AnnualTax(gross * 12.0, socialInsurance * 12.0, dependents).value);
    }
  }

  /** A bonus is charged the whole yen by which it raises the tax of the year, and nothing when it does not. */
  lemma BonusMeans(gross: real, socialInsurance: real, bonus: real, bonusInsurance: real, dependents: int)
    ensures EstimateBonus(gross, socialInsurance, bonus, bonusInsurance, dependents).Ok? <==>
      && gross >= 0.0 && socialInsurance >= 0.0 && bonus >= 0.0 && bonusInsurance >= 0.0 && dependents >= 0
      && (bonus == 0.0 || gross * 12.0 >= 550_000.0)
    ensures EstimateBonus(gross, socialInsurance, bonus, bonusInsurance, dependents).Ok? ==>
      var charged := EstimateBonus(gross, socialInsurance, bonus, bonusInsurance, dependents).value;
      if bonus == 0.0 then charged == 0
      else
        var without := AnnualTax(gross * 12.0, socialInsurance * 12.0, dependents).value;
        var with := AnnualTax(gross * 12.0 + bonus, socialInsurance * 12.0 + bonusInsurance, dependents).value;
        if with <= without then charged == 0
        else charged as real <= with - without < charged as real + 1.0
  {
    AnnualTaxMeans(gross * 12.0, socialInsurance * 12.0, dependents);
    AnnualTaxMeans(gross * 12.0 + bonus, socialInsurance * 12.0 + bonusInsurance, dependents);
    hide AnnualTax;
  }

  lemma HundredsBelow(x: real)
    requires x >= 0.0
    ensures Hundreds(x) % 100 == 0 && 0 <= Hundreds(x) && Hundreds(x) as real <= x < Hundreds(x) as real + 100.0
  {
  }

  /** The estimate is refused for pay that is positive but below the fixed salary deduction, and for no other. */
  lemma MonthlyRefusedExactlyWhen(gross: real, socialInsurance: real, dependents: int)
    requires gross >= 0.0 && socialInsurance >= 0.0 && dependents >= 0
    ensures EstimateMonthly(gross, socialInsurance, dependents).Err? <==> 0.0 < gross * 12.0 < 550_000.0
  {
    if gross > 0.0 {
      NegativeIncomeExactlyWhen(gross * 12.0);
    }
  }

  /** The year-end computation accepts the pay that the estimate refuses: its negative income counts as nothing, no tax
      is due, and all that was withheld is refunded. */
  lemma LowPayIsSettled(
    gross: real, socialInsurance: real, dependents: int, deductions: real, withheld: real, housingCredit: real)
    requires 0.0 < gross * 12.0 < 550_000.0 && socialInsurance >= 0.0 && dependents >= 0
    requires deductions >= 0.0 && withheld >= 0.0 && housingCredit >= 0.0
    ensures EstimateMonthly(gross, socialInsurance, dependents).Err?
    ensures var s := Settle(gross * 12.0, deductions, withheld, housingCredit);
      && s.Ok? && s.value.salaryIncome < 0.0 && s.value.yearTax == 0
      && s.value.refund == withheld && s.value.additional == 0.0
  {
    hide EstimateMonthly;
    MonthlyRefusedExactlyWhen(gross, socialInsurance, dependents);
    NegativeIncomeExactlyWhen(gross * 12.0);
    assert TaxableIncome(gross * 12.0, deductions) == 0.0;
    assert Tax(0.0) == 0;
    assert YearTax(0.0) == 0;
  }

  /** Twelve times the truncated twelfth is a multiple of four, and so is the year's tax. */
  lemma TwelveMonths(tax: real)
    requires tax >= 0.0
    ensures
      var month, year := Truncated(tax / 12.0), Hundreds(tax);
      && month >= 0 && (12 * month - year) % 4 == 0
      && -8 <= 12 * month - year <= 96
  {
    var month, year := Truncated(tax / 12.0), Hundreds(tax);
    HundredsBelow(tax);
    assert (12 * month) as real <= tax < (12 * month) as real + 12.0;
    var difference := 12 * month - year;
    assert -12 < difference < 100;
    assert difference == 4 * (3 * month - 25 * (Truncated(tax) / 100));
  }

  lemma AnnualTaxIsNotNegative(gross: real, socialInsurance: real, dependents: int)
    requires AnnualTax(gross, socialInsurance, dependents).Ok?
    ensures AnnualTax(gross, socialInsurance, dependents).value >= 0.0
  {
    QuickFormulaIsMarginal(TaxableIncome(gross, Deductions(gross, socialInsurance, dependents).value));
  }

  /** Settling with the deductions of the estimate compares what was withheld with the annual tax in hundreds. */
  lemma SettleWithin(gross: real, socialInsurance: real, dependents: int, tax: real, withheld: int, lo: nat, hi: nat)
    requires AnnualTax(gross, socialInsurance, dependents) == Ok(tax) && socialInsurance >= 0.0 && withheld >= 0
    requires Hundreds(tax) - lo <= withheld <= Hundreds(tax) + hi
    ensures
      var deductions := Deductions(gross, socialInsurance, dependents);
      && deductions.Ok?
      && var settled := Settle(gross, deductions.value, withheld as real, 0.0);
      && settled.Ok? && settled.value.additional <= lo as real && settled.value.refund <= hi as real
  {
    var taxable := TaxableIncome(gross, Deductions(gross, socialInsurance, dependents).value);
    QuickFormulaIsMarginal(taxable);
  }

  /**
    * Twelve level months settle to at most 8 yen collected or 96 yen refunded, when the year end takes the same
    * deductions and there is no housing credit.
    */
  lemma LevelMonthsSettle(gross: real, socialInsurance: real, dependents: int)
    requires EstimateMonthly(gross, socialInsurance, dependents).Ok? && gross > 0.0
    ensures
      var month := EstimateMonthly(gross, socialInsurance, dependents).value;
      var deductions := Deductions(gross * 12.0, socialInsurance * 12.0, dependents);
      && deductions.Ok?
      && var settled := Settle(gross * 12.0, deductions.value, 12.0 * month as real, 0.0);
      && settled.Ok? && settled.value.additional <= 8.0 && settled.value.refund <= 96.0
  {
    var tax := AnnualTax(gross * 12.0, socialInsurance * 12.0, dependents).value;
    AnnualTaxIsNotNegative(gross * 12.0, socialInsurance * 12.0, dependents);
    TwelveMonths(tax);
    SettleWithin(gross * 12.0, socialInsurance * 12.0, dependents, tax, 12 * Truncated(tax / 12.0), 8, 96);
  }

  /** Both bounds are reached: 94,000 a month collects 8 yen, 174,000 a month refunds 96. */
  lemma BoundsAreReached()
    ensures
      && EstimateMonthly(94_000.0, 0.0, 0) == Ok(416)
      && EstimateMonthly(174_000.0, 0.0, 0) == Ok(3_833)
      && Settle(1_128_000.0, 480_000.0, 12.0 * 416.0, 0.0).value.additional == 8.0
      && Settle(2_088_000.0, 480_000.0, 12.0 * 3_833.0, 0.0).value.refund == 96.0
  {
    SmallYear();
    LargeYear();
  }

  lemma SmallYear()
    ensures SalaryIncome(1_128_000.0) == 578_000.0 && Tax(98_000.0) == 4_900
    ensures EstimateMonthly(94_000.0, 0.0, 0) == Ok(416)
    ensures Settle(1_128_000.0, 480_000.0, 12.0 * 416.0, 0.0).value.additional == 8.0
  {
    assert Deduction(1_128_000.0) == 550_000;
    assert (98_000.0 / 1000.0).Floor == 98;
    assert TaxableIncome(1_128_000.0, 480_000.0) == 98_000.0;
    assert YearTax(4_900.0) == 5_000;
  }

  lemma LargeYear()
    ensures SalaryIncome(2_088_000.0) == 1_381_600.0 && Tax(901_600.0) == 45_050
    ensures EstimateMonthly(174_000.0, 0.0, 0) == Ok(3_833)
    ensures Settle(2_088_000.0, 480_000.0, 12.0 * 3_833.0, 0.0).value.refund == 96.0
  {
    assert Deduction(2_088_000.0) == 706_400;
    assert (901_600.0 / 1000.0).Floor == 901;
    assert TaxableIncome(2_088_000.0, 480_000.0) == 901_600.0;
    assert YearTax(45_050.0) == 45_900;
  }

  /** What is withheld in a year with a bonus, from the annual taxes without and with it. */
  lemma WithheldWithBonus(
    gross: real, socialInsurance: real, bonus: real, bonusInsurance: real, dependents: int, level: real, whole: real)
    requires gross > 0.0 && bonus > 0.0 && socialInsurance >= 0.0 && bonusInsurance >= 0.0 && dependents >= 0
    requires AnnualTax(gross * 12.0, socialInsurance * 12.0, dependents) == Ok(level)
    requires AnnualTax(gross * 12.0 + bonus, socialInsurance * 12.0 + bonusInsurance, dependents) == Ok(whole)
    ensures EstimateMonthly(gross, socialInsurance, dependents) == Ok(Truncated(level / 12.0))
    ensures EstimateBonus(gross, socialInsurance, bonus, bonusInsurance, dependents)
         == Ok(if whole <= level then 0 else Truncated(whole - level))
  {
  }

  lemma BonusArithmetic(level: real, whole: real, month: int, extra: int)
    requires 0.0 <= level <= whole
    requires month == Truncated(level / 12.0) && extra == if whole <= level then 0 else Truncated(whole - level)
    ensures 0 <= 12 * month + extra && -12 <= 12 * month + extra - Hundreds(whole) <= 99
  {
    HundredsBelow(whole);
    assert (12 * month) as real <= level < (12 * month) as real + 12.0;
    assert extra as real <= whole - level < extra as real + 1.0;
  }

  lemma SettleBonus(
    year: real, insurance: real, dependents: int, level: real, whole: real, month: int, extra: int)
    requires AnnualTax(year, insurance, dependents) == Ok(whole) && insurance >= 0.0 && 0.0 <= level <= whole
    requires month == Truncated(level / 12.0) && extra == if whole <= level then 0 else Truncated(whole - level)
    ensures
      var deductions := Deductions(year, insurance, dependents);
      && deductions.Ok?
      && var settled := Settle(year, deductions.value, (12 * month + extra) as real, 0.0);
      && settled.Ok? && settled.value.additional <= 12.0 && settled.value.refund <= 99.0
  {
    BonusArithmetic(level, whole, month, extra);
    SettleWithin(year, insurance, dependents, whole, 12 * month + extra, 12, 99);
  }

  /** With a bonus that does not lower the annual tax, the whole year settles within 12 yen collected or 99 refunded. */
  lemma BonusYearSettles(
    gross: real, socialInsurance: real, bonus: real, bonusInsurance: real, dependents: int, level: real, whole: real,
    month: int, extra: int)
    requires gross > 0.0 && bonus > 0.0 && socialInsurance >= 0.0 && bonusInsurance >= 0.0 && dependents >= 0
    requires AnnualTax(gross * 12.0, socialInsurance * 12.0, dependents) == Ok(level)
    requires AnnualTax(gross * 12.0 + bonus, socialInsurance * 12.0 + bonusInsurance, dependents) == Ok(whole)
    requires EstimateMonthly(gross, socialInsurance, dependents) == Ok(month)
    requires EstimateBonus(gross, socialInsurance, bonus, bonusInsurance, dependents) == Ok(extra)
    requires level <= whole
    ensures
      var deductions := Deductions(gross * 12.0 + bonus, socialInsurance * 12.0 + bonusInsurance, dependents);
      && deductions.Ok?
      && var settled := Settle(gross * 12.0 + bonus, deductions.value, (12 * month + extra) as real, 0.0);
      && settled.Ok? && settled.value.additional <= 12.0 && settled.value.refund <= 99.0
  {
    assert 0.0 <= level && month == Truncated(level / 12.0)
      && extra == (if whole <= level then 0 else Truncated(whole - level)) by {
      AnnualTaxIsNotNegative(gross * 12.0, socialInsurance * 12.0, dependents);
      WithheldWithBonus(gross, socialInsurance, bonus, bonusInsurance, dependents, level, whole);
    }
    SettleBonus(
      gross * 12.0 + bonus, socialInsurance * 12.0 + bonusInsurance, dependents, level, whole, month, extra);
  }

  /** More whole yen of pay, with the same insurance and dependents, never lower the annual tax. */
  lemma MorePayMoreTax(a: int, b: int, socialInsurance: real, dependents: int)
    requires 550_000 <= a <= b && dependents >= 0
    ensures AnnualTax(a as real, socialInsurance, dependents).Ok?
    ensures AnnualTax(b as real, socialInsurance, dependents).Ok?
    ensures AnnualTax(a as real, socialInsurance, dependents).value
         <= AnnualTax(b as real, socialInsurance, dependents).value
  {
    NegativeIncomeExactlyWhen(a as real);
    NegativeIncomeExactlyWhen(b as real);
    MorePayMoreIncome(a, b);
    BasicDeductionShrinks(SalaryIncome(a as real), SalaryIncome(b as real));
    TaxIsMonotone(
      TaxableIncome(a as real, Deductions(a as real, socialInsurance, dependents).value),
      TaxableIncome(b as real, Deductions(b as real, socialInsurance, dependents).value));
  }

  /** Whole yen of pay and of bonus, and no insurance on the bonus: the year settles within 12 yen collected or 99
      refunded. */
  lemma WholeYenBonusSettles(
    year: int, gross: real, socialInsurance: real, bonus: int, dependents: int, month: int, extra: int)
    requires gross * 12.0 == year as real && year >= 550_000 && bonus > 0
    requires socialInsurance >= 0.0 && dependents >= 0
    requires EstimateMonthly(gross, socialInsurance, dependents) == Ok(month)
    requires EstimateBonus(gross, socialInsurance, bonus as real, 0.0, dependents) == Ok(extra)
    ensures
      var deductions := Deductions((year + bonus) as real, socialInsurance * 12.0, dependents);
      && deductions.Ok?
      && var settled := Settle((year + bonus) as real, deductions.value, (12 * month + extra) as real, 0.0);
      && settled.Ok? && settled.value.additional <= 12.0 && settled.value.refund <= 99.0
  {
    hide AnnualTax, EstimateMonthly, EstimateBonus, Settle, Deductions;
    MorePayMoreTax(year, year + bonus, socialInsurance * 12.0, dependents);
    assert gross * 12.0 + bonus as real == (year + bonus) as real;
    assert socialInsurance * 12.0 + 0.0 == socialInsurance * 12.0;
    BonusYearSettles(
      gross, socialInsurance, bonus as real, 0.0, dependents,
      AnnualTax(year as real, socialInsurance * 12.0, dependents).value,
      AnnualTax((year + bonus) as real, socialInsurance * 12.0, dependents).value, month, extra);
  }

  /** What a settlement with the deductions of the estimate pays back, on balance. */
  lemma SettleOnBalance(gross: real, socialInsurance: real, dependents: int, tax: real, withheld: int)
    requires AnnualTax(gross, socialInsurance, dependents) == Ok(tax) && socialInsurance >= 0.0 && withheld >= 0
    ensures
      var deductions := Deductions(gross, socialInsurance, dependents);
      && deductions.Ok?
      && var settled := Settle(gross, deductions.value, withheld as real, 0.0);
      && settled.Ok? && settled.value.refund - settled.value.additional == (withheld - Hundreds(tax)) as real
      && (settled.value.refund == 0.0 || settled.value.additional == 0.0)
  {
    var taxable := TaxableIncome(gross, Deductions(gross, socialInsurance, dependents).value);
    QuickFormulaIsMarginal(taxable);
  }

  /** When the insurance on the bonus lowers the annual tax, nothing is withheld from the bonus, and the year end pays
      back what the tax fell by, less 12 yen at most and 100 yen more at most. */
  lemma LoweringBonusIsRefunded(
    gross: real, socialInsurance: real, bonus: real, bonusInsurance: real, dependents: int, level: real, whole: real,
    month: int, extra: int)
    requires gross > 0.0 && bonus > 0.0 && socialInsurance >= 0.0 && bonusInsurance >= 0.0 && dependents >= 0
    requires AnnualTax(gross * 12.0, socialInsurance * 12.0, dependents) == Ok(level)
    requires AnnualTax(gross * 12.0 + bonus, socialInsurance * 12.0 + bonusInsurance, dependents) == Ok(whole)
    requires EstimateMonthly(gross, socialInsurance, dependents) == Ok(month)
    requires EstimateBonus(gross, socialInsurance, bonus, bonusInsurance, dependents) == Ok(extra)
    requires whole < level
    ensures extra == 0
    ensures
      var deductions := Deductions(gross * 12.0 + bonus, socialInsurance * 12.0 + bonusInsurance, dependents);
      && deductions.Ok?
      && var settled := Settle(gross * 12.0 + bonus, deductions.value, (12 * month) as real, 0.0);
      && settled.Ok?
      && level - whole - 12.0 < settled.value.refund - settled.value.additional < level - whole + 100.0
      && (settled.value.refund == 0.0 || settled.value.additional == 0.0)
  {
    hide AnnualTax, Settle, Deductions;
    assert extra == 0 && month == Truncated(level / 12.0) by {
      WithheldWithBonus(gross, socialInsurance, bonus, bonusInsurance, dependents, level, whole);
    }
    hide EstimateMonthly, EstimateBonus;
    AnnualTaxIsNotNegative(gross * 12.0, socialInsurance * 12.0, dependents);
    AnnualTaxIsNotNegative(gross * 12.0 + bonus, socialInsurance * 12.0 + bonusInsurance, dependents);
    LoweredArithmetic(level, whole, month);
    SettleOnBalance(gross * 12.0 + bonus, socialInsurance * 12.0 + bonusInsurance, dependents, whole, 12 * month);
  }

  lemma LoweredArithmetic(level: real, whole: real, month: int)
    requires 0.0 <= whole < level && month == Truncated(level / 12.0)
    ensures month >= 0
    ensures level - whole - 12.0 < (12 * month - Hundreds(whole)) as real < level - whole + 100.0
  {
    HundredsBelow(whole);
    assert (12 * month) as real <= level < (12 * month) as real + 12.0;
  }
}
