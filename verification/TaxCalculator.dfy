/** Consumption tax on one amount: excluded from it, or included in it. */
module TaxCalculator {
  import opened Sums
  import opened Quotients

  /** Truncation toward zero to a whole yen. */
  function Truncated(x: real): int {
    if x >= 0.0 then x.Floor else -((-x).Floor)
  }

  /** The tax added to an amount. */
  function AddedTax(amount: Money, rate: real): int {
    Truncated(amount * rate)
  }

  /** The tax contained in an amount. */
  function ContainedTax(amount: Money, rate: real): int
    requires rate != -1.0
  {
    Truncated(amount * rate / (1.0 + rate))
  }

  /** The amount without tax, and the tax. An inclusive rate of -1 would be a division by zero. */
  function CalculateTax(amount: Money, rate: real, isInclusive: bool): (Money, int)
    requires isInclusive ==> rate != -1.0
  {
    if isInclusive then (amount - ContainedTax(amount, rate) as real, ContainedTax(amount, rate))
    else (amount, AddedTax(amount, rate))
  }

  lemma FloorIs(x: real, n: int)
    requires n >= 0 && n as real <= x < n as real + 1.0
    ensures Truncated(x) == n
  {
  }

  lemma Mirrored(x: real, y: real)
    requires y == -x
    ensures Truncated(y) == -Truncated(x)
  {
  }

  lemma MirroredTaxes(amount: Money, rate: real)
    requires rate >= 0.0
    ensures AddedTax(-amount, rate) == -AddedTax(amount, rate)
    ensures ContainedTax(-amount, rate) == -ContainedTax(amount, rate)
  {
    var added := amount * rate;
    assert -amount * rate == -added;
    Mirrored(added, -amount * rate);
    Quotient(-added, 1.0 + rate, -(added / (1.0 + rate)));
    Mirrored(added / (1.0 + rate), -amount * rate / (1.0 + rate));
  }

  lemma Shrinks(x: real, y: real)
    requires 0.0 <= x < 1.0 <= y
    ensures 0.0 <= x / y < 1.0 && (x / y) * y == x
  {
    assert (x / y) * y == x;
  }

  lemma GrossTimesRate(amount: real, tax: real, rate: real, rest: real)
    requires amount * rate == tax + rest
    ensures (amount + tax) * rate == tax + tax * rate + rest
  {
    assert (amount + tax) * rate == amount * rate + tax * rate;
  }

  lemma QuotientTimesDivisor(tax: real, part: real, rate: real, rest: real)
    requires part * (1.0 + rate) == rest
    ensures (tax + part) * (1.0 + rate) == tax + tax * rate + rest
  {
    assert (tax + part) * (1.0 + rate) == tax * (1.0 + rate) + part * (1.0 + rate);
    assert tax * (1.0 + rate) == tax + tax * rate;
  }

  /** With `rest` cut off from the added tax, `rest / (1 + rate)` is cut off from the contained one. */
  lemma ContainedQuotient(amount: Money, rate: real, tax: real, rest: real)
    requires rate >= 0.0 && amount * rate == tax + rest && 0.0 <= rest < 1.0
    ensures (amount + tax) * rate / (1.0 + rate) == tax + rest / (1.0 + rate)
  {
    Shrinks(rest, 1.0 + rate);
    GrossTimesRate(amount, tax, rate, rest);
    QuotientTimesDivisor(tax, rest / (1.0 + rate), rate, rest);
    Quotient((amount + tax) * rate, 1.0 + rate, tax + rest / (1.0 + rate));
  }

  lemma ContainedIs(total: Money, rate: real, tax: int, part: real)
    requires rate >= 0.0 && tax >= 0 && 0.0 <= part < 1.0 && total * rate / (1.0 + rate) == tax as real + part
    ensures ContainedTax(total, rate) == tax
  {
    FloorIs(total * rate / (1.0 + rate), tax);
  }

  lemma TaxIsContained(amount: Money, rate: real)
    requires amount >= 0.0 && rate >= 0.0
    ensures ContainedTax(amount + AddedTax(amount, rate) as real, rate) == AddedTax(amount, rate)
  {
    var tax := AddedTax(amount, rate);
    var rest := CutOff(amount, rate, tax);
    ContainedQuotient(amount, rate, tax as real, rest);
    Shrinks(rest, 1.0 + rate);
    ContainedIs(amount + tax as real, rate, tax, rest / (1.0 + rate));
  }

  /** The part of a yen that truncation cuts off the added tax. */
  lemma CutOff(amount: Money, rate: real, tax: int) returns (rest: real)
    requires amount >= 0.0 && rate >= 0.0 && tax == AddedTax(amount, rate)
    ensures tax >= 0 && amount * rate == tax as real + rest && 0.0 <= rest < 1.0
  {
    var added := amount * rate;
    assert added >= 0.0;
    rest := added - tax as real;
  }

  /** Adding the tax to an amount and extracting it again gives the same amount and the same tax. */
  lemma ExtractingUndoesAdding(amount: Money, rate: real)
    requires rate >= 0.0
    ensures
      var added := CalculateTax(amount, rate, false);
      CalculateTax(added.0 + added.1 as real, rate, true) == added
  {
    if amount >= 0.0 {
      TaxIsContained(amount, rate);
    } else {
      var gross := -amount + AddedTax(-amount, rate) as real;
      TaxIsContained(-amount, rate);
      MirroredTaxes(-amount, rate);
      MirroredTaxes(gross, rate);
      assert amount == -(-amount);
      assert -gross == amount + AddedTax(amount, rate) as real;
    }
  }

  /** The contained tax before truncation, of a total without its sign. */
  function Contained(total: Money, rate: real): real
    requires rate >= 0.0
  {
    (if total >= 0.0 then total else -total) * rate / (1.0 + rate)
  }

  /** What truncation cuts off the contained tax is less than a yen even with tax on it. */
  predicate CutsLittle(total: Money, rate: real)
    requires rate >= 0.0
  {
    var q := Contained(total, rate);
    (q - q.Floor as real) * (1.0 + rate) < 1.0
  }

  /** With `part` cut off the contained tax, the tax on what is left is the same tax and `part * (1 + rate)`. */
  lemma NetTimesRate(total: Money, rate: real, tax: real, part: real)
    requires rate >= 0.0 && total * rate / (1.0 + rate) == tax + part
    ensures (total - tax) * rate == tax + part * (1.0 + rate)
  {
    assert total * rate == (tax + part) * (1.0 + rate);
    QuotientTimesDivisor(tax, part, rate, part * (1.0 + rate));
    assert (total - tax) * rate == total * rate - tax * rate;
  }

  lemma ProductIsNotNegative(x: real, y: real)
    requires x >= 0.0 && y >= 0.0
    ensures x * y >= 0.0
  {
  }

  lemma WholePart(q: real, whole: nat, part: real)
    requires q == whole as real + part && 0.0 <= part < 1.0
    ensures q.Floor == whole && q - q.Floor as real == part
  {
  }

  /** The contained tax and what is cut off it decide whether little is cut off. */
  lemma CutIs(total: Money, rate: real, tax: nat, part: real)
    requires rate >= 0.0 && total >= 0.0
    requires total * rate / (1.0 + rate) == tax as real + part && 0.0 <= part < 1.0
    ensures ContainedTax(total, rate) == tax
    ensures CutsLittle(total, rate) <==> part * (1.0 + rate) < 1.0
  {
    ContainedIs(total, rate, tax, part);
    var q := Contained(total, rate);
    assert q == tax as real + part;
    WholePart(q, tax, part);
    assert (q - q.Floor as real) * (1.0 + rate) == part * (1.0 + rate);
  }

  /** A quotient as whole yen and the part cut off. */
  lemma CutPart(x: real, y: real) returns (tax: nat, part: real)
    requires x >= 0.0 && y > 0.0
    ensures x / y == tax as real + part && 0.0 <= part < 1.0
  {
    var q := x / y;
    assert q * y == x;
    SignOfProduct(q, y);
    tax, part := q.Floor, q - q.Floor as real;
  }

  lemma AddedIs(net: Money, rate: real, tax: nat, rest: real)
    requires net * rate == tax as real + rest && rest >= 0.0
    ensures AddedTax(net, rate) == tax <==> rest < 1.0
  {
  }

  lemma TaxIsAddedBackExactlyWhen(total: Money, rate: real)
    requires total >= 0.0 && rate >= 0.0
    ensures
      var tax := ContainedTax(total, rate);
      AddedTax(total - tax as real, rate) == tax <==> CutsLittle(total, rate)
  {
    ProductIsNotNegative(total, rate);
    var tax, part := CutPart(total * rate, 1.0 + rate);
    CutIs(total, rate, tax, part);
    NetTimesRate(total, rate, tax as real, part);
    ProductIsNotNegative(part, 1.0 + rate);
    AddedIs(total - tax as real, rate, tax, part * (1.0 + rate));
  }

  /** Extracting the tax from a total and adding it again gives the total back exactly when truncation cut off less
      than one yen divided by `1 + rate`. */
  lemma AddingUndoesExtractingExactlyWhen(total: Money, rate: real)
    requires rate >= 0.0
    ensures
      var extracted := CalculateTax(total, rate, true);
      CalculateTax(extracted.0, rate, false) == extracted <==> CutsLittle(total, rate)
  {
    hide AddedTax, ContainedTax, Contained;
    if total >= 0.0 {
      TaxIsAddedBackExactlyWhen(total, rate);
    } else {
      TaxIsAddedBackExactlyWhen(-total, rate);
      CutsMirrored(total, rate);
      MirroredTaxes(total, rate);
      var net := total - ContainedTax(total, rate) as real;
      MirroredTaxes(net, rate);
      assert -net == -total - ContainedTax(-total, rate) as real;
    }
  }

  lemma CutsMirrored(total: Money, rate: real)
    requires rate >= 0.0 && total < 0.0
    ensures CutsLittle(total, rate) <==> CutsLittle(-total, rate)
  {
    assert Contained(total, rate) == Contained(-total, rate);
  }

  /** In whole yen: at ten percent every eleventh total does not come back, at eight percent two of 27 do not. */
  lemma WholeYenTotals(total: nat)
    ensures CutsLittle(total as real, 0.10) <==> total % 11 != 10
    ensures CutsLittle(total as real, 0.08) <==> total % 27 != 13 && total % 27 != 26
  {
    TenPercent(total);
    EightPercent(total);
  }

  lemma TenPercent(total: nat)
    ensures CutsLittle(total as real, 0.10) <==> total % 11 != 10
  {
    hide CutsLittle;
    var tax, cut := total / 11, total % 11;
    assert total as real == 11.0 * tax as real + cut as real;
    CutIs(total as real, 0.10, tax, cut as real / 11.0);
  }

  lemma EightPercent(total: nat)
    ensures CutsLittle(total as real, 0.08) <==> total % 27 != 13 && total % 27 != 26
  {
    hide CutsLittle;
    var tax, cut := 2 * total / 27, 2 * total % 27;
    assert 2.0 * total as real == 27.0 * tax as real + cut as real;
    CutIs(total as real, 0.08, tax, cut as real / 27.0);
    assert 25 <= cut <==> total % 27 == 13 || total % 27 == 26;
  }

  /** A total with tax that adding tax to some amount produces. */
  ghost predicate IsTotal(total: Money, rate: real) {
    exists amount: Money :: amount + AddedTax(amount, rate) as real == total
  }

  /** The totals that come back are exactly those that adding tax can produce. */
  lemma TotalsCutLittle(total: Money, rate: real)
    requires rate >= 0.0
    ensures IsTotal(total, rate) <==> CutsLittle(total, rate)
  {
    hide CutsLittle, AddedTax, ContainedTax;
    AddingUndoesExtractingExactlyWhen(total, rate);
    var net := total - ContainedTax(total, rate) as real;
    if AddedTax(net, rate) == ContainedTax(total, rate) {
      assert net + AddedTax(net, rate) as real == total;
    }
    if IsTotal(total, rate) {
      var amount: Money :| amount + AddedTax(amount, rate) as real == total;
      ExtractingUndoesAdding(amount, rate);
    }
  }

  /** No amount becomes 109 yen with ten percent added. */
  lemma OneHundredNineIsNoTotal()
    ensures !IsTotal(109.0, 0.10)
  {
    WholeYenTotals(109);
    TotalsCutLittle(109.0, 0.10);
  }
}
