/** Closing dates and payment dates. */
module PaymentTerms {
  import opened Wrappers
  import opened Calendar

  datatype TermsError = ClosingDayOutOfRange | PaymentDayOutOfRange | NegativeOffset | UnknownAdjustment

  datatype Adjustment = Next | Previous | NoAdjustment | Other(name: string)

  // ----- Closing dates -----

  /** The dates on which a closing day falls: that day of the month, or the month's last day when it is shorter. */
  predicate IsClosingDate(d: Date, closingDay: int) {
    Valid(d) && OnClampedDay(d, closingDay)
  }

  method ComputeClosingDate(invoiceDate: Date, closingDay: int) returns (r: Result<Date, TermsError>)
    requires Valid(invoiceDate)
    ensures r == ClosingDate(invoiceDate, closingDay)
    ensures r == Err(ClosingDayOutOfRange) <==> closingDay <= 0 || closingDay >= 32
  {
    if closingDay < 1 || closingDay > 31 {
      return Err(ClosingDayOutOfRange);
    }
    DateMonth(invoiceDate);
    var k := MonthIndexOf(invoiceDate);
    var monthEnd := Length(k);
    var target := if closingDay >= monthEnd then monthEnd else closingDay;
    SameClamp(k, target, closingDay);
    var closing := ClampedDate(k, target);
    if invoiceDate.day > closing.day {
      SameClamp(k + 1, target, closingDay);
      closing := ClampedDate(k + 1, target);
    }
    return Ok(closing);
  }

  /** Clamping to the month's own length first makes no difference, unless a later month is longer. */
  lemma SameClamp(k: int, target: int, day: int)
    requires k >= 12 && day >= 1
    requires target == (if day < Length(k) then day else Length(k)) || target == day
    ensures target >= 1 && ClampedDate(k, target) == ClampedDate(k, day)
  {
  }

  function ClosingDate(invoiceDate: Date, closingDay: int): Result<Date, TermsError>
    requires Valid(invoiceDate)
  {
    if closingDay < 1 || closingDay > 31 then Err(ClosingDayOutOfRange)
    else
      DateMonth(invoiceDate);
      var k := MonthIndexOf(invoiceDate);
      if invoiceDate.day <= Clamped(k, closingDay) then Ok(ClampedDate(k, closingDay))
      else Ok(ClampedDate(k + 1, closingDay))
  }

  /** The computed date is the first closing date on or after the input. */
  lemma ClosingDateIsLeast(d: Date, closingDay: int, other: Date)
    requires Valid(d) && 1 <= closingDay <= 31
    ensures
      var c := ClosingDate(d, closingDay);
      && c.Ok? && IsClosingDate(c.value, closingDay) && DayNumber(d) <= DayNumber(c.value)
      && (IsClosingDate(other, closingDay) && DayNumber(d) <= DayNumber(other) ==>
            DayNumber(c.value) <= DayNumber(other))
  {
    hide DayNumber;
    var c := ClosingDate(d, closingDay).value;
    DateMonth(d);
    DateOrder(c, d);
    DateOrder(d, c);
    if IsClosingDate(other, closingDay) && DayNumber(d) <= DayNumber(other) {
      DateMonth(other);
      DateOrder(other, d);
      DateOrder(other, c);
    }
  }

  /** Closing is monotone, and closing a closing date changes nothing. */
  lemma ClosingIsMonotoneAndIdempotent(a: Date, b: Date, closingDay: int)
    requires Valid(a) && Valid(b) && 1 <= closingDay <= 31
    ensures DayNumber(a) <= DayNumber(b) ==>
      DayNumber(ClosingDate(a, closingDay).value) <= DayNumber(ClosingDate(b, closingDay).value)
    ensures ClosingDate(ClosingDate(a, closingDay).value, closingDay) == ClosingDate(a, closingDay)
    ensures IsClosingDate(a, closingDay) <==> ClosingDate(a, closingDay) == Ok(a)
  {
    var ca, cb := ClosingDate(a, closingDay).value, ClosingDate(b, closingDay).value;
    ClosingDateIsLeast(a, closingDay, cb);
    ClosingDateIsLeast(b, closingDay, cb);
    ClosingDateIsLeast(ca, closingDay, ca);
    var cca := ClosingDate(ca, closingDay).value;
    DateOrder(ca, cca);
    DateOrder(cca, ca);
    ClosingDateIsLeast(a, closingDay, a);
    DateOrder(a, ca);
    DateOrder(ca, a);
  }

  // ----- Business days -----

  predicate IsBusinessDay(day: int, holidays: seq<int>) {
    Weekday(day) < 5 && day !in holidays
  }

  /** A day after (or before) all the given ones. */
  ghost function Beyond(holidays: seq<int>, up: bool): (m: int)
    ensures forall h :: h in holidays ==> if up then h < m else m < h
  {
    if holidays == [] then 0
    else
      var rest, last := Beyond(holidays[..|holidays| - 1], up), holidays[|holidays| - 1];
      assert holidays == holidays[..|holidays| - 1] + [last];
      if up then (if last < rest then rest else last + 1) else (if rest < last then rest else last - 1)
  }

  /** However many holidays there are, business days go on in both directions. */
  lemma BusinessDayAhead(day: int, holidays: seq<int>, up: bool) returns (b: int)
    ensures IsBusinessDay(b, holidays) && if up then day <= b else b <= day
  {
    var edge := Beyond(holidays, up);
    var m := if up then (if day < edge then edge else day) else (if edge < day then edge else day);
    var s := if up then 1 else -1;
    b := if Weekday(m) < 5 then m else if Weekday(m + s) < 5 then m + s else m + 2 * s;
  }

  /** The nearest business day on or after (or on or before) a day. */
  ghost predicate IsNearest(from: int, day: int, holidays: seq<int>, up: bool) {
    && Weekday(day) <= 4 && day !in holidays
    && (if up then from <= day else day <= from)
    && forall x {:trigger Weekday(x)} {:trigger x in holidays} ::
         (if up then from <= x < day else day < x <= from) ==> Weekday(x) >= 5 || x in holidays
  }

  method Shift(from: int, holidays: seq<int>, up: bool) returns (day: int)
    ensures IsNearest(from, day, holidays, up)
  {
    ghost var goal := BusinessDayAhead(from, holidays, up);
    day := from;
    while !IsBusinessDay(day, holidays)
      invariant if up then from <= day <= goal else goal <= day <= from
      invariant forall x {:trigger Weekday(x)} {:trigger x in holidays} ::
        (if up then from <= x < day else day < x <= from) ==> Weekday(x) >= 5 || x in holidays
      decreases if up then goal - day else day - goal
    {
      day := day + if up then 1 else -1;
    }
  }

  // ----- Payment dates -----

  function AddMonths(k: int, delta: int): int { k + delta }

  /** The date the terms name, before any adjustment. */
  function NominalPaymentDate(closing: Date, offset: int, paymentDay: int): (d: Date)
    requires Valid(closing) && offset >= 0 && 1 <= paymentDay
    ensures Valid(d) && 12 * d.year + d.month == 12 * closing.year + closing.month + offset
    ensures d.day == paymentDay || (d.day < paymentDay && !Valid(Date(d.year, d.month, d.day + 1)))
    ensures MonthIndexOf(d) == MonthIndexOf(closing) + offset && OnClampedDay(d, paymentDay)
  {
    DateMonth(closing);
    var d := ClampedDate(AddMonths(MonthIndexOf(closing), offset), paymentDay);
    ClampedDayMeans(d, paymentDay);
    d
  }

  datatype Terms = Terms(closingDay: int, paymentMonthOffset: int, paymentDay: int, adjustment: Adjustment)

  function TermsProblem(t: Terms): Option<TermsError> {
    if t.paymentDay < 1 || t.paymentDay > 31 then Some(PaymentDayOutOfRange)
    else if t.paymentMonthOffset < 0 then Some(NegativeOffset)
    else if t.adjustment.Other? then Some(UnknownAdjustment)
    else if t.closingDay < 1 || t.closingDay > 31 then Some(ClosingDayOutOfRange)
    else None
  }

  /** Which terms are refused, and with what: the payment day is looked at first, the closing day last. */
  lemma TermsRefusedExactlyWhen(t: Terms)
    ensures
      var e := TermsProblem(t);
      && (e == Some(PaymentDayOutOfRange) <==> t.paymentDay <= 0 || t.paymentDay >= 32)
      && (e == Some(NegativeOffset) <==> 1 <= t.paymentDay <= 31 && t.paymentMonthOffset <= -1)
      && (e == Some(UnknownAdjustment) <==>
            1 <= t.paymentDay <= 31 && t.paymentMonthOffset >= 0 && t.adjustment !in {Next, Previous, NoAdjustment})
      && (e == Some(ClosingDayOutOfRange) <==>
            && 1 <= t.paymentDay <= 31 && t.paymentMonthOffset >= 0 && t.adjustment in {Next, Previous, NoAdjustment}
            && (t.closingDay <= 0 || t.closingDay >= 32))
  {
  }

  /** The day the terms ask for: the nominal date, moved to the nearest business day in the given direction. */
  ghost predicate IsPaymentDay(invoiceDate: Date, t: Terms, holidays: seq<int>, day: int)
    requires Valid(invoiceDate) && TermsProblem(t).None?
  {
    var nominal := DayNumber(
      NominalPaymentDate(ClosingDate(invoiceDate, t.closingDay).value, t.paymentMonthOffset, t.paymentDay));
    match t.adjustment
    case NoAdjustment => day == nominal
    case Next => IsNearest(nominal, day, holidays, true)
    case Previous => IsNearest(nominal, day, holidays, false)
    case Other(_) => false
  }

  method ComputePaymentDate(invoiceDate: Date, t: Terms, holidays: seq<int>) returns (r: Result<int, TermsError>)
    requires Valid(invoiceDate)
    ensures TermsProblem(t).Some? ==> r == Err(TermsProblem(t).value)
    ensures TermsProblem(t).None? ==> r.Ok? && IsPaymentDay(invoiceDate, t, holidays, r.value)
  {
    if t.paymentDay < 1 || t.paymentDay > 31 {
      return Err(PaymentDayOutOfRange);
    }
    if t.paymentMonthOffset < 0 {
      return Err(NegativeOffset);
    }
    if t.adjustment.Other? {
      return Err(UnknownAdjustment);
    }
    var closed := ComputeClosingDate(invoiceDate, t.closingDay);
    if closed.Err? {
      return Err(closed.error);
    }
    DateMonth(closed.value);
    var k := AddMonths(MonthIndexOf(closed.value), t.paymentMonthOffset);
    var target := if t.paymentDay >= 31 then Length(k) else t.paymentDay;
    var date := ClampedDate(k, target);
    if t.adjustment == NoAdjustment {
      return Ok(DayNumber(date));
    }
    var day := Shift(DayNumber(date), holidays, t.adjustment == Next);
    return Ok(day);
  }

  lemma NearestIsUnique(from: int, a: int, b: int, holidays: seq<int>, up: bool)
    requires IsNearest(from, a, holidays, up) && IsNearest(from, b, holidays, up)
    ensures a == b
  {
  }

  /** The terms determine the payment day. */
  lemma PaymentDayIsUnique(invoiceDate: Date, t: Terms, holidays: seq<int>, a: int, b: int)
    requires Valid(invoiceDate) && TermsProblem(t).None?
    requires IsPaymentDay(invoiceDate, t, holidays, a) && IsPaymentDay(invoiceDate, t, holidays, b)
    ensures a == b
  {
    if t.adjustment != NoAdjustment {
      var nominal := DayNumber(
        NominalPaymentDate(ClosingDate(invoiceDate, t.closingDay).value, t.paymentMonthOffset, t.paymentDay));
      NearestIsUnique(nominal, a, b, holidays, t.adjustment == Next);
    }
  }

  /** The payment day of a closing date is the payment day of every date that closes on it. */
  lemma PaymentDayFromClosing(invoiceDate: Date, t: Terms, holidays: seq<int>, day: int)
    requires Valid(invoiceDate) && TermsProblem(t).None?
    ensures IsPaymentDay(ClosingDate(invoiceDate, t.closingDay).value, t, holidays, day)
       <==> IsPaymentDay(invoiceDate, t, holidays, day)
  {
    ClosingIsMonotoneAndIdempotent(invoiceDate, invoiceDate, t.closingDay);
  }
}
