/** Sorting overdue receivables into losses, individual reserves and the general reserve, and the drafts made of it. */
module BadDebtAssessment {
  import opened Wrappers
  import opened Sums
  import opened TaxCalculator
  import opened Journal
  import opened BadDebt

  datatype Event =
    | NoEvent
    | ReorganizationPlan | RehabilitationPlan | SpecialLiquidationAgreement | DebtForgiveness
    | ReorganizationFiling | RehabilitationFiling | BankruptcyFiling | SpecialLiquidationFiling | BillSuspension
    | Insolvency | DeferredPayment
    | UnknownEvent(name: string)

  datatype Receivable = Receivable(
    id: string, amount: Money, dueDate: int, event: Event, secured: Money, offsettable: Money, writtenOff: Money,
    repayment: Money, unrecoverable: bool, isTrade: bool, lastTransaction: Option<int>)

  datatype Assessed = Assessed(
    receivableId: string, amount: Money, treatment: Treatment, loss: Money, reserve: Money, general: Money)

  datatype Assessment = Assessment(
    items: seq<Assessed>, totalLoss: Money, totalIndividual: Money, generalReceivables: Money,
    generalOffsettable: Money, generalLimit: Option<int>, totalLimit: Money, manualIds: seq<string>)

  datatype AssessmentError =
    | DuplicateReceivable | InvalidEvent | AmountNotPositive | Negative(name: string) | ExceedsAmount(name: string)
    | WrittenOffMissing | InvalidIndustry | RateNotPositive

  const MEMORANDUM_VALUE := 1.0
  const TRADE_SUSPENSION_DAYS := 365
  const STATUTORY_RATES := map[
    "wholesale_retail" := 0.010, "manufacturing" := 0.008, "finance_insurance" := 0.003,
    "installment_retail" := 0.007, "other" := 0.006]

  predicate IsWriteOffEvent(e: Event) {
    e.ReorganizationPlan? || e.RehabilitationPlan? || e.SpecialLiquidationAgreement? || e.DebtForgiveness?
  }

  predicate IsFormalEvent(e: Event) {
    || e.ReorganizationFiling? || e.RehabilitationFiling? || e.BankruptcyFiling? || e.SpecialLiquidationFiling?
    || e.BillSuspension?
  }

  // ----- One receivable -----

  function FieldProblem(name: string, value: Money, amount: Money): Option<AssessmentError> {
    if value < 0.0 then Some(Negative(name))
    else if value > amount then Some(ExceedsAmount(name))
    else None
  }

  function Problem(r: Receivable): Option<AssessmentError> {
    if r.event.UnknownEvent? then Some(InvalidEvent)
    else if r.amount <= 0.0 then Some(AmountNotPositive)
    else if FieldProblem("secured_amount", r.secured, r.amount).Some? then
      FieldProblem("secured_amount", r.secured, r.amount)
    else if FieldProblem("offsettable_amount", r.offsettable, r.amount).Some? then
      FieldProblem("offsettable_amount", r.offsettable, r.amount)
    else if FieldProblem("written_off_amount", r.writtenOff, r.amount).Some? then
      FieldProblem("written_off_amount", r.writtenOff, r.amount)
    else if FieldProblem("repayment_within_5years", r.repayment, r.amount).Some? then
      FieldProblem("repayment_within_5years", r.repayment, r.amount)
    else if IsWriteOffEvent(r.event) && r.writtenOff <= 0.0 then Some(WrittenOffMissing)
    else None
  }

  /** Rounding to a whole number, halves to the even one. */
  function HalfEven(x: real): int {
    var f := x.Floor;
    var rest := x - f as real;
    if rest < 0.5 || (rest == 0.5 && f % 2 == 0) then f else f + 1
  }

  predicate TradeHasStopped(r: Receivable, asOf: int) {
    && r.event == NoEvent && r.isTrade && r.lastTransaction.Some? && r.secured <= 0.0
    && asOf - (if r.lastTransaction.value >= r.dueDate then r.lastTransaction.value else r.dueDate)
       >= TRADE_SUSPENSION_DAYS
  }

  function AssessOne(r: Receivable, asOf: int): Assessed {
    if IsWriteOffEvent(r.event) then
      Assessed(r.id, r.amount, if r.amount - r.writtenOff > 0.0 then Manual else Loss, r.writtenOff, 0.0, 0.0)
    else if r.unrecoverable then
      if r.secured > 0.0 then Assessed(r.id, r.amount, Manual, 0.0, 0.0, 0.0)
      else Assessed(r.id, r.amount, Loss, r.amount, 0.0, 0.0)
    else if TradeHasStopped(r, asOf) then Assessed(r.id, r.amount, Loss, r.amount - MEMORANDUM_VALUE, 0.0, 0.0)
    else if r.event == DeferredPayment then
      Assessed(r.id, r.amount, IndividualReserve, 0.0, Max(r.amount - r.repayment - r.secured, 0.0), 0.0)
    else if r.event == Insolvency then
      Assessed(r.id, r.amount, IndividualReserve, 0.0, Max(r.amount - r.secured, 0.0), 0.0)
    else if IsFormalEvent(r.event) then
      Assessed(
        r.id, r.amount, IndividualReserve, 0.0,
        HalfEven(Max(r.amount - r.secured - r.offsettable, 0.0) * 0.5) as real, 0.0)
    else Assessed(r.id, r.amount, GeneralReserve, 0.0, 0.0, r.amount)
  }

  /** No receivable is used twice: what is written off, reserved for it alone and put into the general base never adds
      up to more than the receivable, and at most one of the three is there. A loss below zero comes from the one yen
      left on a receivable of less than a yen. */
  lemma UsedOnce(r: Receivable, asOf: int)
    requires Problem(r).None?
    ensures var a := AssessOne(r, asOf);
      && a.loss + a.reserve + a.general <= r.amount
      && a.reserve >= 0.0 && (a.general == 0.0 || a.general == r.amount)
      && (a.loss != 0.0 ==> a.reserve == 0.0 && a.general == 0.0) && (a.reserve != 0.0 ==> a.general == 0.0)
      && (a.treatment == GeneralReserve <==> a.general == r.amount)
      && (a.loss < 0.0 <==>
            r.amount < MEMORANDUM_VALUE && !IsWriteOffEvent(r.event) && !r.unrecoverable && TradeHasStopped(r, asOf))
  {
    var base := Max(r.amount - r.secured - r.offsettable, 0.0);
    HalfIsLess(base);
  }

  lemma HalfIsLess(base: real)
    requires base >= 0.0
    ensures 0 <= HalfEven(base * 0.5) && HalfEven(base * 0.5) as real <= base
  {
    var f := (base * 0.5).Floor;
    assert f as real <= base * 0.5 < f as real + 1.0;
  }

  // ----- Which treatment, on the fields -----

  ghost predicate Agreed(r: Receivable) {
    r.event in {ReorganizationPlan, RehabilitationPlan, SpecialLiquidationAgreement, DebtForgiveness}
  }

  ghost predicate Filed(r: Receivable) {
    r.event in {
      ReorganizationFiling, RehabilitationFiling, BankruptcyFiling, SpecialLiquidationFiling, BillSuspension}
  }

  /** A trade receivable without security or event, a year after both the last transaction and the due date. */
  ghost predicate Stopped(r: Receivable, asOf: int) {
    && r.event == NoEvent && r.isTrade && r.secured <= 0.0 && asOf - r.dueDate >= 365
    && r.lastTransaction.Some? && asOf - r.lastTransaction.value >= 365
  }

  ghost predicate Within(value: Money, amount: Money) { 0.0 <= value <= amount }

  /** What a receivable must be. */
  lemma ReceivableAcceptedExactlyWhen(r: Receivable)
    ensures Problem(r).None? <==>
      && !r.event.UnknownEvent? && r.amount > 0.0
      && Within(r.secured, r.amount) && Within(r.offsettable, r.amount)
      && Within(r.writtenOff, r.amount) && Within(r.repayment, r.amount)
      && (Agreed(r) ==> r.writtenOff > 0.0)
  {
  }

  /** The complaints, in the order in which they are looked for. */
  lemma ReceivableRefusedWith(r: Receivable)
    requires Problem(r).Some?
    ensures
      Problem(r).value ==
      if r.event.UnknownEvent? then InvalidEvent
      else if r.amount <= 0.0 then AmountNotPositive
      else if r.secured < 0.0 then Negative("secured_amount")
      else if r.secured > r.amount then ExceedsAmount("secured_amount")
      else if r.offsettable < 0.0 then Negative("offsettable_amount")
      else if r.offsettable > r.amount then ExceedsAmount("offsettable_amount")
      else if r.writtenOff < 0.0 then Negative("written_off_amount")
      else if r.writtenOff > r.amount then ExceedsAmount("written_off_amount")
      else if r.repayment < 0.0 then Negative("repayment_within_5years")
      else if r.repayment > r.amount then ExceedsAmount("repayment_within_5years")
      else WrittenOffMissing
  {
  }

  /** A loss is an agreed cut of the whole, a receivable given up without security, or a stopped one; a person decides
      on what is left of a cut and on security not yet sold. */
  lemma TreatmentMeans(r: Receivable, asOf: int)
    requires Problem(r).None?
    ensures
      var a := AssessOne(r, asOf);
      && a.receivableId == r.id && a.amount == r.amount
      && (a.treatment == Loss <==>
            || (Agreed(r) && r.writtenOff == r.amount)
            || (!Agreed(r) && r.unrecoverable && r.secured == 0.0)
            || (!Agreed(r) && !r.unrecoverable && Stopped(r, asOf)))
      && (a.treatment == Manual <==>
            (Agreed(r) && r.writtenOff < r.amount) || (!Agreed(r) && r.unrecoverable && r.secured > 0.0))
      && (a.treatment == IndividualReserve <==>
            !Agreed(r) && !r.unrecoverable && (Filed(r) || r.event == Insolvency || r.event == DeferredPayment))
  {
  }

  /** How much is lost: what was agreed, everything, or everything but one yen. */
  lemma LossMeans(r: Receivable, asOf: int)
    requires Problem(r).None?
    ensures
      AssessOne(r, asOf).loss ==
      if Agreed(r) then r.writtenOff
      else if r.unrecoverable then (if r.secured > 0.0 then 0.0 else r.amount)
      else if Stopped(r, asOf) then r.amount - 1.0
      else 0.0
  {
  }

  /** How much is reserved: what is neither secured nor expected back, half of it on a mere filing, rounded to the
      nearest yen and to the even one of two. */
  lemma ReserveMeans(r: Receivable, asOf: int)
    requires Problem(r).None? && AssessOne(r, asOf).treatment == IndividualReserve
    ensures
      var reserve := AssessOne(r, asOf).reserve;
      var open := r.amount - r.secured
        - (if r.event == DeferredPayment then r.repayment else if r.event == Insolvency then 0.0 else r.offsettable);
      var base := if open >= 0.0 then open else 0.0;
      if !Filed(r) then reserve == base
      else
        && reserve == reserve.Floor as real && base - 1.0 <= 2.0 * reserve <= base + 1.0
        && (2.0 * reserve == base - 1.0 || 2.0 * reserve == base + 1.0 ==> reserve.Floor % 2 == 0)
  {
  }

  // ----- All receivables -----

  function AssessEach(rs: seq<Receivable>, asOf: int): (items: seq<Assessed>)
    ensures |items| == |rs| && forall i :: 0 <= i < |rs| ==> items[i] == AssessOne(rs[i], asOf)
  {
    if rs == [] then [] else AssessEach(rs[..|rs| - 1], asOf) + [AssessOne(rs[|rs| - 1], asOf)]
  }

  function FirstProblem(rs: seq<Receivable>): Option<AssessmentError> {
    if rs == [] then None
    else if FirstProblem(rs[..|rs| - 1]).Some? then FirstProblem(rs[..|rs| - 1]) else Problem(rs[|rs| - 1])
  }

  predicate UniqueIds(rs: seq<Receivable>) {
    forall i, j :: 0 <= i < j < |rs| ==> rs[i].id != rs[j].id
  }

  function LossIn(a: Assessed): Money { a.loss }
  function ReserveIn(a: Assessed): Money { a.reserve }
  function GeneralIn(a: Assessed): Money { a.general }
  function AmountIn(r: Receivable): Money { r.amount }
  function GeneralOffset(asOf: int): Receivable -> Money {
    (r: Receivable) => if AssessOne(r, asOf).treatment == GeneralReserve then r.offsettable else 0.0
  }

  function ManualIds(items: seq<Assessed>): seq<string> {
    if items == [] then []
    else
      var last := items[|items| - 1];
      ManualIds(items[..|items| - 1]) + if last.treatment == Manual then [last.receivableId] else []
  }

  function RateFor(industry: string, statutory: Option<real>): Result<real, AssessmentError> {
    if statutory.None? then
      if industry in STATUTORY_RATES then Ok(STATUTORY_RATES[industry]) else Err(InvalidIndustry)
    else if statutory.value <= 0.0 then Err(RateNotPositive)
    else Ok(statutory.value)
  }

  /** The rate: the given one, or that of the industry. */
  lemma RateMeans(industry: string, statutory: Option<real>, rate: real)
    ensures RateFor(industry, statutory) == Ok(rate) <==>
      || (statutory == Some(rate) && rate > 0.0)
      || (statutory.None? && (
            || (industry == "wholesale_retail" && rate == 0.010) || (industry == "manufacturing" && rate == 0.008)
            || (industry == "finance_insurance" && rate == 0.003)
            || (industry == "installment_retail" && rate == 0.007) || (industry == "other" && rate == 0.006)))
    ensures RateFor(industry, statutory).Err? ==>
      RateFor(industry, statutory).error == if statutory.None? then InvalidIndustry else RateNotPositive
  {
  }

  /** The general reserve, cut to a whole yen, of what is not offset. */
  function GeneralLimit(receivables: Money, offset: Money, rate: real): int {
    Truncated(Max(receivables - offset, 0.0) * rate)
  }

  function Assess(rs: seq<Receivable>, asOf: int, industry: string, statutory: Option<real>)
    : Result<Assessment, AssessmentError>
  {
    if !UniqueIds(rs) then Err(DuplicateReceivable)
    else if FirstProblem(rs).Some? then Err(FirstProblem(rs).value)
    else
      var items := AssessEach(rs, asOf);
      var individual, general := Total(items, ReserveIn), Total(items, GeneralIn);
      var offset := Total(rs, GeneralOffset(asOf));
      if general <= 0.0 then
        Ok(Assessment(
          items, Total(items, LossIn), individual, general, offset, None, individual, ManualIds(items)))
      else if RateFor(industry, statutory).Err? then Err(RateFor(industry, statutory).error)
      else
        var limit := GeneralLimit(general, offset, RateFor(industry, statutory).value);
        Ok(Assessment(
          items, Total(items, LossIn), individual, general, offset, Some(limit), individual + limit as real,
          ManualIds(items)))
  }

  /** The complaint about the first receivable that has one. */
  lemma {:induction false} FirstProblemMeans(rs: seq<Receivable>)
    ensures FirstProblem(rs).None? <==> forall n :: 0 <= n < |rs| ==> Problem(rs[n]).None?
    ensures FirstProblem(rs).Some? ==>
      exists n :: 0 <= n < |rs| && Problem(rs[n]) == FirstProblem(rs) && forall m :: 0 <= m < n ==> Problem(rs[m]).None?
  {
    if rs != [] {
      hide Problem;
      var init := rs[..|rs| - 1];
      FirstProblemMeans(init);
      if FirstProblem(init).Some? {
        var n :| 0 <= n < |init| && Problem(init[n]) == FirstProblem(init)
          && forall m :: 0 <= m < n ==> Problem(init[m]).None?;
        assert Problem(rs[n]) == FirstProblem(rs);
        assert forall m :: 0 <= m < n ==> rs[m] == init[m];
      } else {
        assert forall m :: 0 <= m < |init| ==> rs[m] == init[m];
      }
    }
  }

  lemma {:induction false} ManualIdsAre(items: seq<Assessed>)
    ensures forall id :: id in ManualIds(items) <==>
      exists a :: a in items && a.treatment == Manual && a.receivableId == id
    ensures forall n :: 0 <= n < |items| ==> ManualIds(items[..n]) <= ManualIds(items)
  {
    if items != [] {
      var init := items[..|items| - 1];
      assert items == init + [items[|items| - 1]];
      ManualIdsAre(init);
      forall n | 0 <= n < |items|
        ensures ManualIds(items[..n]) <= ManualIds(items)
      {
        assert n < |init| ==> init[..n] == items[..n];
      }
    }
  }

  ghost predicate NeedsGeneralReserve(rs: seq<Receivable>, asOf: int) {
    exists n :: 0 <= n < |rs| && AssessOne(rs[n], asOf).treatment == GeneralReserve
  }

  /** Accepted exactly when the receivables are told apart and each is acceptable, and, when any of them is left to the
      general reserve, there is a rate for it. */
  lemma AssessedExactlyWhen(rs: seq<Receivable>, asOf: int, industry: string, statutory: Option<real>)
    ensures Assess(rs, asOf, industry, statutory).Ok? <==>
      && (forall i, j :: 0 <= i < j < |rs| ==> rs[i].id != rs[j].id)
      && (forall i :: 0 <= i < |rs| ==> Problem(rs[i]).None?)
      && (NeedsGeneralReserve(rs, asOf) ==> exists rate :: RateFor(industry, statutory) == Ok(rate))
  {
    hide AssessOne, Problem, RateFor, GeneralLimit, ManualIds, FirstProblem, Total, AssessEach;
    FirstProblemMeans(rs);
    if FirstProblem(rs).None? {
      GeneralIsPositive(rs, asOf);
    }
    assert RateFor(industry, statutory).Ok? ==>
      RateFor(industry, statutory) == Ok(RateFor(industry, statutory).value);
  }

  /** What is reported: the individual reserves, and for the others together the rate on what cannot be offset, cut to a
      whole yen. */
  lemma AssessedReserves(rs: seq<Receivable>, asOf: int, industry: string, statutory: Option<real>)
    requires Assess(rs, asOf, industry, statutory).Ok?
    ensures
      var a := Assess(rs, asOf, industry, statutory).value;
      var open := a.generalReceivables - a.generalOffsettable;
      var base := if open >= 0.0 then open else 0.0;
      && a.items == AssessEach(rs, asOf)
      && a.totalLoss == Total(a.items, LossIn) && a.totalIndividual == Total(a.items, ReserveIn)
      && a.generalReceivables == Total(a.items, GeneralIn) && a.generalOffsettable == Total(rs, GeneralOffset(asOf))
      && (a.generalLimit.Some? <==> NeedsGeneralReserve(rs, asOf))
      && a.totalLimit == a.totalIndividual + (if a.generalLimit.Some? then a.generalLimit.value as real else 0.0)
      && (a.generalLimit.Some? ==>
            exists rate :: RateFor(industry, statutory) == Ok(rate)
              && a.generalLimit.value as real <= base * rate < a.generalLimit.value as real + 1.0)
  {
    hide AssessOne, Problem, RateFor, ManualIds, FirstProblem, Total, AssessEach, GeneralLimit;
    GeneralIsPositive(rs, asOf);
    var general, offset := Total(AssessEach(rs, asOf), GeneralIn), Total(rs, GeneralOffset(asOf));
    if general > 0.0 {
      var rate := RateFor(industry, statutory).value;
      RateIsPositive(industry, statutory);
      LimitMeans(general, offset, rate);
    }
  }

  /** Only a receivable left to the general reserve is offset there. */
  lemma OffsetMeans(r: Receivable, asOf: int)
    requires Problem(r).None?
    ensures AssessOne(r, asOf).general == r.amount ==> GeneralOffset(asOf)(r) == r.offsettable
    ensures AssessOne(r, asOf).general == 0.0 ==> GeneralOffset(asOf)(r) == 0.0
  {
    UsedOnce(r, asOf);
    ReceivableAcceptedExactlyWhen(r);
  }

  lemma RateIsPositive(industry: string, statutory: Option<real>)
    requires RateFor(industry, statutory).Ok?
    ensures RateFor(industry, statutory).value > 0.0
  {
  }

  lemma LimitMeans(receivables: Money, offset: Money, rate: real)
    requires rate >= 0.0
    ensures
      var base := if receivables - offset >= 0.0 then receivables - offset else 0.0;
      var n := GeneralLimit(receivables, offset, rate);
      n as real <= base * rate < n as real + 1.0
  {
    var base := Max(receivables - offset, 0.0);
    ProductIsNotNegative(base, rate);
  }

  lemma {:induction false} GeneralIsPositive(rs: seq<Receivable>, asOf: int)
    requires FirstProblem(rs).None?
    ensures Total(AssessEach(rs, asOf), GeneralIn) >= 0.0
    ensures Total(AssessEach(rs, asOf), GeneralIn) > 0.0 <==> NeedsGeneralReserve(rs, asOf)
  {
    if rs != [] {
      var init, last := rs[..|rs| - 1], rs[|rs| - 1];
      GeneralIsPositive(init, asOf);
      UsedOnce(last, asOf);
      ReceivableAcceptedExactlyWhen(last);
      hide AssessOne, Problem;
      assert AssessEach(rs, asOf) == AssessEach(init, asOf) + [AssessOne(last, asOf)];
      TotalSnoc(AssessEach(init, asOf), AssessOne(last, asOf), GeneralIn);
      assert rs[|rs| - 1] == last && forall n :: 0 <= n < |init| ==> rs[n] == init[n];
    }
  }

  lemma {:induction false} NoProblemAt(rs: seq<Receivable>, i: nat)
    requires FirstProblem(rs).None? && i < |rs|
    ensures Problem(rs[i]).None?
  {
    if i < |rs| - 1 {
      NoProblemAt(rs[..|rs| - 1], i);
    }
  }

  lemma {:induction false} SumsAreBounded(rs: seq<Receivable>, asOf: int)
    requires FirstProblem(rs).None?
    ensures var items := AssessEach(rs, asOf);
      && Total(items, LossIn) + Total(items, ReserveIn) + Total(items, GeneralIn) <= Total(rs, AmountIn)
      && Total(items, ReserveIn) >= 0.0 && Total(items, GeneralIn) >= 0.0
  {
    if rs != [] {
      SumsAreBounded(rs[..|rs| - 1], asOf);
      UsedOnce(rs[|rs| - 1], asOf);
    }
  }

  lemma LimitBounds(receivables: Money, offset: Money, rate: real)
    requires rate >= 0.0
    ensures GeneralLimit(receivables, offset, rate) >= 0
    ensures rate <= 1.0 && offset >= 0.0 && receivables >= 0.0 ==>
      GeneralLimit(receivables, offset, rate) as real <= receivables
  {
    var base := Max(receivables - offset, 0.0);
    ProductIsNotNegative(base, rate);
    if rate <= 1.0 {
      ProductIsNotNegative(base, 1.0 - rate);
      assert base * rate == base - base * (1.0 - rate);
    }
  }

  lemma {:induction false} OffsetIsNotNegative(rs: seq<Receivable>, asOf: int)
    requires FirstProblem(rs).None?
    ensures Total(rs, GeneralOffset(asOf)) >= 0.0
  {
    if rs != [] {
      OffsetIsNotNegative(rs[..|rs| - 1], asOf);
      NoProblemAt(rs, |rs| - 1);
    }
  }

  /** An assessment never asks for a negative allowance, and with a rate of at most one, losses and allowance together
      never exceed the receivables. */
  lemma AssessedLimit(rs: seq<Receivable>, asOf: int, industry: string, statutory: Option<real>)
    requires Assess(rs, asOf, industry, statutory).Ok?
    ensures var a := Assess(rs, asOf, industry, statutory).value;
      && a.totalLimit >= 0.0
      && (statutory.None? || statutory.value <= 1.0 ==> a.totalLoss + a.totalLimit <= Total(rs, AmountIn))
  {
    hide AssessOne, GeneralLimit;
    SumsAreBounded(rs, asOf);
    OffsetIsNotNegative(rs, asOf);
    var general := Total(AssessEach(rs, asOf), GeneralIn);
    if general > 0.0 {
      LimitBounds(general, Total(rs, GeneralOffset(asOf)), RateFor(industry, statutory).value);
    }
  }

  // ----- The drafts of an assessment -----

  /** What the drafts are made from. */
  function ItemOf(a: Assessed): Item { Item(a.receivableId, a.treatment, a.loss) }

  function ItemsOf(items: seq<Assessed>): (r: seq<Item>)
    ensures |r| == |items| && forall i :: 0 <= i < |items| ==> r[i] == ItemOf(items[i])
  {
    seq(|items|, i requires 0 <= i < |items| => ItemOf(items[i]))
  }

  /** For every assessment the ledger ends where the report says, with either method. */
  lemma AssessedLedgerAgrees(
    rs: seq<Receivable>, asOf: int, industry: string, statutory: Option<real>, opening: Money,
    rates: map<string, real>, tax: TaxTreatment, how: AllowanceMethod, date: int, r: BadDebtResult)
    requires Assess(rs, asOf, industry, statutory).Ok? && opening >= 0.0 && !how.OtherMethod?
    requires
      var a := Assess(rs, asOf, industry, statutory).value;
      var entries := Entries(ItemsOf(a.items), rates, tax);
      AllProper(entries) && IsResult(entries, opening, how, a.totalLimit, date, r)
    ensures
      opening + DraftsCredit(r.drafts, BadDebtAllowance) - DraftsDebit(r.drafts, BadDebtAllowance) == r.closing
  {
    hide Assess, AllProper, IsResult;
    var a := Assess(rs, asOf, industry, statutory).value;
    AssessedLimit(rs, asOf, industry, statutory);
    LedgerAgreesExactlyWhen(Entries(ItemsOf(a.items), rates, tax), opening, how, a.totalLimit, date, r);
  }

  /** Losses that the drafts leave to a person, and losses below zero, which they skip. */
  function LeftOut(a: Assessed): Money {
    if a.treatment == Manual || (a.treatment == Loss && a.loss < 0.0) then a.loss else 0.0
  }

  /** An agreed cut that leaves part of the receivable standing. */
  predicate CutWithRemainder(r: Receivable) {
    IsWriteOffEvent(r.event) && r.writtenOff < r.amount
  }

  /** A stopped trade receivable of less than the one yen that has to remain. */
  predicate BelowMemorandum(r: Receivable, asOf: int) {
    && !IsWriteOffEvent(r.event) && !r.unrecoverable && TradeHasStopped(r, asOf)
    && r.amount < MEMORANDUM_VALUE
  }

  /** Which receivables the drafts leave out: a positive loss is not drafted exactly for an agreed cut with a remainder,
      and a loss of any sign is left out exactly there and below the memorandum yen. */
  lemma LeftOutExactlyWhen(r: Receivable, asOf: int)
    requires Problem(r).None?
    ensures var a := AssessOne(r, asOf);
      && (a.loss > 0.0 && !Counted(ItemOf(a)) <==> CutWithRemainder(r))
      && (LeftOut(a) != 0.0 <==> CutWithRemainder(r) || BelowMemorandum(r, asOf))
      && (CutWithRemainder(r) ==> LeftOut(a) == r.writtenOff)
      && (BelowMemorandum(r, asOf) ==> LeftOut(a) == r.amount - MEMORANDUM_VALUE)
  {
  }

  /** What the drafts leave out of a receivable, told from the receivable. */
  function NotDrafted(asOf: int): Receivable -> Money {
    (r: Receivable) =>
      if CutWithRemainder(r) then r.writtenOff
      else if BelowMemorandum(r, asOf) then r.amount - MEMORANDUM_VALUE
      else 0.0
  }

  lemma {:induction false} LeftOutTotal(rs: seq<Receivable>, asOf: int)
    requires FirstProblem(rs).None?
    ensures Total(AssessEach(rs, asOf), LeftOut) == Total(rs, NotDrafted(asOf))
  {
    if rs != [] {
      var init, last := rs[..|rs| - 1], rs[|rs| - 1];
      LeftOutTotal(init, asOf);
      LeftOutExactlyWhen(last, asOf);
      hide AssessOne, Problem, LeftOut, CutWithRemainder, BelowMemorandum;
      assert AssessEach(rs, asOf) == AssessEach(init, asOf) + [AssessOne(last, asOf)];
      TotalSnoc(AssessEach(init, asOf), AssessOne(last, asOf), LeftOut);
    }
  }

  lemma LossIsDraftedOrLeftOut(r: Receivable, asOf: int, rates: map<string, real>, tax: TaxTreatment)
    requires Problem(r).None?
    ensures var a := AssessOne(r, asOf);
      a.loss == (if Counted(ItemOf(a)) then LossOf(EntryOf(ItemOf(a), rates, tax)) else 0.0) + LeftOut(a)
  {
    UsedOnce(r, asOf);
  }

  lemma {:induction false} LossesAreWrittenOff(
    rs: seq<Receivable>, asOf: int, rates: map<string, real>, tax: TaxTreatment)
    requires FirstProblem(rs).None?
    ensures
      var items := AssessEach(rs, asOf);
      Total(items, LossIn) == Total(Entries(ItemsOf(items), rates, tax), LossOf) + Total(items, LeftOut)
  {
    if rs != [] {
      var init, last := rs[..|rs| - 1], rs[|rs| - 1];
      var before, a := AssessEach(init, asOf), AssessOne(last, asOf);
      LossesAreWrittenOff(init, asOf, rates, tax);
      LossIsDraftedOrLeftOut(last, asOf, rates, tax);
      hide AssessOne, Problem, Entries, LeftOut, EntryOf, Counted;
      assert ItemsOf(AssessEach(rs, asOf)) == ItemsOf(before) + [ItemOf(a)];
      EntrySnoc(ItemsOf(before), ItemOf(a), rates, tax, LossOf);
    }
  }

  /** The losses assessed are the losses drafted and those the drafts leave out. */
  lemma AssessedLossIsSplit(
    rs: seq<Receivable>, asOf: int, industry: string, statutory: Option<real>, opening: Money,
    rates: map<string, real>, tax: TaxTreatment, how: AllowanceMethod, date: int, r: BadDebtResult)
    requires Assess(rs, asOf, industry, statutory).Ok?
    requires
      var a := Assess(rs, asOf, industry, statutory).value;
      IsResult(Entries(ItemsOf(a.items), rates, tax), opening, how, a.totalLimit, date, r)
    ensures
      var a := Assess(rs, asOf, industry, statutory).value;
      && a.totalLoss == r.totalWriteOff + Total(a.items, LeftOut)
      && Total(a.items, LeftOut) == Total(rs, NotDrafted(asOf))
  {
    hide AssessOne, Problem, Entries, LeftOut, GeneralLimit, ClosesAt, YearEndDrafts, WriteOffs, Total, NotDrafted;
    hide FirstProblem, UniqueIds, ManualIds, RateFor, AssessEach, ItemsOf, LossOf, LossIn;
    LeftOutTotal(rs, asOf);
    LossesAreWrittenOff(rs, asOf, rates, tax);
  }

  /** One receivable of 100, of which 60 are cut by agreement. */
  function AgreedCut(due: int): Receivable {
    Receivable("r", 100.0, due, DebtForgiveness, 0.0, 0.0, 60.0, 0.0, false, true, None)
  }

  lemma AgreedCutAssessed(due: int, asOf: int)
    ensures
      var a := Assess([AgreedCut(due)], asOf, "other", None);
      && a.Ok? && a.value.totalLoss == 60.0
      && Entries(ItemsOf(a.value.items), map[], Exclusive) == []
  {
    var r := AgreedCut(due);
    var item := AssessOne(r, asOf);
    assert Problem(r).None?;
    assert [r][..0] == [] && [item][..0] == [];
    assert FirstProblem([r]).None?;
    assert AssessEach([r], asOf) == [item] && item.loss == 60.0 && item.treatment == Manual;
    TotalSnoc([], item, LossIn);
    TotalSnoc([], item, GeneralIn);
    assert [] + [item] == [item];
    assert ItemsOf([item]) == [ItemOf(item)] && [ItemOf(item)][..0] == [];
  }

  /** Its assessment counts a loss of 60, and the result made from it writes off nothing. */
  lemma AgreedCutIsNotDrafted(
    due: int, asOf: int, opening: Money, how: AllowanceMethod, target: Money, date: int, items: seq<Item>,
    r: BadDebtResult)
    requires Assess([AgreedCut(due)], asOf, "other", None).Ok?
    requires items == ItemsOf(Assess([AgreedCut(due)], asOf, "other", None).value.items)
    requires IsResult(Entries(items, map[], Exclusive), opening, how, target, date, r)
    ensures Assess([AgreedCut(due)], asOf, "other", None).value.totalLoss == 60.0 && r.totalWriteOff == 0.0
  {
    hide Assess;
    AgreedCutAssessed(due, asOf);
  }
}
