/** The tax of one invoice: lines are added up by rate, and each rate is truncated once. */
module InvoiceTax {
  import opened Wrappers
  import opened Sums
  import opened Sorting
  import opened TaxCalculator
  import Lists

  datatype TaxLine = TaxLine(amount: Money, taxRate: real)

  datatype Breakdown = Breakdown(taxRate: real, taxableBase: Money, tax: int)

  datatype Computation = Computation(byRate: seq<Breakdown>, totalTaxable: Money, totalTax: Money, totalAmount: Money)

  datatype TaxError = NoLines | NegativeAmount | UnsupportedRate

  predicate Allowed(rate: real) {
    rate == 0.10 || rate == 0.08 || rate == 0.00
  }

  function AmountOf(l: TaxLine): Money { l.amount }
  function LineTax(l: TaxLine): Money { AddedTax(l.amount, l.taxRate) as real }
  function One(l: TaxLine): real { 1.0 }

  function BaseOf(b: Breakdown): Money { b.taxableBase }
  function TaxOf(b: Breakdown): Money { b.tax as real }

  /** `f` on the lines of one rate, nothing on the others. */
  function At(f: TaxLine -> real, rate: real): TaxLine -> real {
    (l: TaxLine) => if l.taxRate == rate then f(l) else 0.0
  }

  lemma AtSnoc(lines: seq<TaxLine>, l: TaxLine, f: TaxLine -> real, rate: real)
    ensures Total(lines + [l], At(f, rate)) == Total(lines, At(f, rate)) + if l.taxRate == rate then f(l) else 0.0
  {
    TotalSnoc(lines, l, At(f, rate));
  }

  function LineProblem(l: TaxLine): Option<TaxError> {
    if l.amount < 0.0 then Some(NegativeAmount) else if !Allowed(l.taxRate) then Some(UnsupportedRate) else None
  }

  /** The first complaint about the lines, in their order. */
  function FirstProblem(lines: seq<TaxLine>): Option<TaxError> {
    if lines == [] then None
    else
      var before := FirstProblem(lines[..|lines| - 1]);
      if before.Some? then before else LineProblem(lines[|lines| - 1])
  }

  /** An amount that is not negative, at ten, eight or zero percent. */
  ghost predicate Fine(l: TaxLine) {
    l.amount >= 0.0 && l.taxRate in {0.10, 0.08, 0.0}
  }

  /** The first line that is not fine, told by its negative amount or else its rate, is what is refused. */
  ghost predicate IsFirstProblem(lines: seq<TaxLine>, e: TaxError) {
    exists i {:trigger lines[i]} :: 0 <= i < |lines| && !Fine(lines[i])
      && (forall j {:trigger lines[j]} :: 0 <= j < i ==> Fine(lines[j]))
      && e == if lines[i].amount < 0.0 then NegativeAmount else UnsupportedRate
  }

  lemma {:induction false} FirstProblemMeans(lines: seq<TaxLine>)
    ensures FirstProblem(lines).None? <==> forall i :: 0 <= i < |lines| ==> Fine(lines[i])
    ensures FirstProblem(lines).Some? ==> IsFirstProblem(lines, FirstProblem(lines).value)
  {
    if lines != [] {
      var init := lines[..|lines| - 1];
      FirstProblemMeans(init);
      if FirstProblem(init).Some? {
        var i :| 0 <= i < |init| && !Fine(init[i]) && (forall j :: 0 <= j < i ==> Fine(init[j]))
          && FirstProblem(init).value == if init[i].amount < 0.0 then NegativeAmount else UnsupportedRate;
        assert lines[i] == init[i] && forall j :: 0 <= j < i ==> lines[j] == init[j];
      } else {
        assert forall j :: 0 <= j < |init| ==> lines[j] == init[j];
      }
    }
  }

  lemma {:induction false} NoProblemAnywhere(lines: seq<TaxLine>)
    ensures FirstProblem(lines).None? <==> forall i :: 0 <= i < |lines| ==> LineProblem(lines[i]).None?
  {
    if lines != [] {
      NoProblemAnywhere(lines[..|lines| - 1]);
    }
  }

  /** One entry a rate that occurs, rates ascending, the tax truncated once from the rate's whole base. */
  ghost predicate IsBreakdown(lines: seq<TaxLine>, byRate: seq<Breakdown>) {
    && Ascending(byRate)
    && (forall j {:trigger byRate[j]} :: 0 <= j < |byRate| ==> IsEntry(lines, byRate[j]))
    && forall i {:trigger lines[i]} :: 0 <= i < |lines| ==> HasRate(byRate, lines[i].taxRate)
  }

  ghost predicate Ascending(byRate: seq<Breakdown>) {
    forall i, j :: 0 <= i < j < |byRate| ==> byRate[i].taxRate < byRate[j].taxRate
  }

  ghost predicate Occurs(lines: seq<TaxLine>, rate: real) {
    exists i :: 0 <= i < |lines| && lines[i].taxRate == rate
  }

  lemma OccursSnoc(lines: seq<TaxLine>, l: TaxLine, rate: real)
    ensures Occurs(lines + [l], rate) <==> Occurs(lines, rate) || l.taxRate == rate
  {
    assert (lines + [l])[|lines|] == l;
    if Occurs(lines, rate) {
      var i :| 0 <= i < |lines| && lines[i].taxRate == rate;
      assert (lines + [l])[i] == lines[i];
    }
  }

  ghost predicate IsEntry(lines: seq<TaxLine>, b: Breakdown) {
    && Occurs(lines, b.taxRate)
    && b.taxableBase == Total(lines, At(AmountOf, b.taxRate))
    && b.tax == AddedTax(b.taxableBase, b.taxRate)
  }

  ghost predicate HasRate(byRate: seq<Breakdown>, rate: real) {
    exists j :: 0 <= j < |byRate| && byRate[j].taxRate == rate
  }

  // ----- The computation -----

  /** Amounts gathered so far, in order of first appearance. */
  datatype Group = Group(rate: real, base: Money)

  ghost predicate Gathered(lines: seq<TaxLine>, groups: seq<Group>) {
    && (forall i, j :: 0 <= i < j < |groups| ==> groups[i].rate != groups[j].rate)
    && (forall j {:trigger groups[j]} :: 0 <= j < |groups| ==> IsGroup(lines, groups[j]))
    && forall i {:trigger lines[i]} :: 0 <= i < |lines| ==>
         HasGroup(groups, lines[i].taxRate)
  }

  ghost predicate HasGroup(groups: seq<Group>, rate: real) {
    exists j :: 0 <= j < |groups| && groups[j].rate == rate
  }

  ghost predicate IsGroup(lines: seq<TaxLine>, g: Group) {
    && Allowed(g.rate)
    && Occurs(lines, g.rate)
    && g.base == Total(lines, At(AmountOf, g.rate))
  }

  method Gather(groups: seq<Group>, l: TaxLine, ghost lines: seq<TaxLine>) returns (r: seq<Group>)
    requires Gathered(lines, groups) && Allowed(l.taxRate)
    ensures Gathered(lines + [l], r)
  {
    var j := 0;
    while j < |groups| && groups[j].rate != l.taxRate
      invariant 0 <= j <= |groups|
      invariant forall i :: 0 <= i < j ==> groups[i].rate != l.taxRate
    {
      j := j + 1;
    }
    if j == |groups| {
      r := groups + [Group(l.taxRate, 0.0 + l.amount)];
      NothingYet(lines, l.taxRate, groups);
    } else {
      r := groups[j := Group(l.taxRate, groups[j].base + l.amount)];
    }
    forall i | 0 <= i < |r|
      ensures IsGroup(lines + [l], r[i])
    {
      if i < |groups| {
        GroupGrows(lines, l, groups[i]);
      } else {
        GroupStarts(lines, l);
      }
    }
    forall i | 0 <= i < |lines + [l]|
      ensures HasGroup(r, (lines + [l])[i].taxRate)
    {
      if i < |lines| {
        assert HasGroup(groups, lines[i].taxRate);
        var m :| 0 <= m < |groups| && groups[m].rate == lines[i].taxRate;
        assert r[m].rate == lines[i].taxRate;
      } else {
        assert r[j].rate == l.taxRate;
      }
    }
  }

  lemma GroupGrows(lines: seq<TaxLine>, l: TaxLine, g: Group)
    requires IsGroup(lines, g)
    ensures IsGroup(lines + [l], if g.rate == l.taxRate then Group(l.taxRate, g.base + l.amount) else g)
  {
    AtSnoc(lines, l, AmountOf, g.rate);
    OccursSnoc(lines, l, g.rate);
  }

  lemma GroupStarts(lines: seq<TaxLine>, l: TaxLine)
    requires Allowed(l.taxRate) && Total(lines, At(AmountOf, l.taxRate)) == 0.0
    ensures IsGroup(lines + [l], Group(l.taxRate, 0.0 + l.amount))
  {
    AtSnoc(lines, l, AmountOf, l.taxRate);
    OccursSnoc(lines, l, l.taxRate);
  }

  lemma NothingYet(lines: seq<TaxLine>, rate: real, groups: seq<Group>)
    requires Gathered(lines, groups) && forall i :: 0 <= i < |groups| ==> groups[i].rate != rate
    ensures Total(lines, At(AmountOf, rate)) == 0.0
  {
    forall i | 0 <= i < |lines|
      ensures lines[i].taxRate != rate
    {
      assert HasGroup(groups, lines[i].taxRate);
    }
    OtherRatesAddNothing(lines, rate, AmountOf);
  }

  lemma {:induction false} OtherRatesAddNothing(lines: seq<TaxLine>, rate: real, f: TaxLine -> real)
    requires forall i :: 0 <= i < |lines| ==> lines[i].taxRate != rate
    ensures Total(lines, At(f, rate)) == 0.0
  {
    if lines != [] {
      OtherRatesAddNothing(lines[..|lines| - 1], rate, f);
    }
  }

  /** The allowed rates are whole percentages, which is what they are sorted by. */
  function Percent(g: Group): Key { Key((g.rate * 100.0).Floor, "") }

  lemma PercentOrder(a: Group, b: Group)
    requires Allowed(a.rate) && Allowed(b.rate) && a.rate != b.rate && KeyLeq(Percent(a), Percent(b))
    ensures a.rate < b.rate
  {
  }

  ghost predicate Rising(groups: seq<Group>) {
    forall i, j :: 0 <= i < j < |groups| ==> groups[i].rate < groups[j].rate
  }

  lemma SortedGroups(lines: seq<TaxLine>, groups: seq<Group>)
    requires Gathered(lines, groups)
    ensures
      var sorted := SortBy(groups, Percent);
      Gathered(lines, sorted) && Rising(sorted)
  {
    var sorted := SortBy(groups, Percent);
    SortMembers(groups, Percent);
    SortBySorted(groups, Percent);
    GroupsStayDistinct(groups, sorted);
    forall j | 0 <= j < |sorted|
      ensures IsGroup(lines, sorted[j])
    {
      assert sorted[j] in groups;
    }
    forall i, j | 0 <= i < j < |sorted|
      ensures sorted[i].rate < sorted[j].rate
    {
      assert IsGroup(lines, sorted[i]) && IsGroup(lines, sorted[j]);
      PercentOrder(sorted[i], sorted[j]);
    }
    forall i | 0 <= i < |lines|
      ensures HasGroup(sorted, lines[i].taxRate)
    {
      assert HasGroup(groups, lines[i].taxRate);
      var m :| 0 <= m < |groups| && groups[m].rate == lines[i].taxRate;
      assert groups[m] in sorted;
    }
  }

  lemma GroupsStayDistinct(groups: seq<Group>, sorted: seq<Group>)
    requires forall i, j :: 0 <= i < j < |groups| ==> groups[i].rate != groups[j].rate
    requires multiset(sorted) == multiset(groups)
    ensures forall i, j :: 0 <= i < j < |sorted| ==> sorted[i].rate != sorted[j].rate
  {
    Lists.DistinctPermutation(groups, sorted);
    forall i, j | 0 <= i < j < |sorted|
      ensures sorted[i].rate != sorted[j].rate
    {
      assert sorted[i] in multiset(sorted) && sorted[j] in multiset(sorted);
      assert sorted[i] in groups && sorted[j] in groups;
    }
  }

  lemma NothingGathered()
    ensures Gathered([], [])
  {
  }

  method ComputeInvoiceTax(lines: seq<TaxLine>) returns (r: Result<Computation, TaxError>)
    ensures lines == [] ==> r == Err(NoLines)
    ensures lines != [] && FirstProblem(lines).Some? ==> r == Err(FirstProblem(lines).value)
    ensures lines != [] && FirstProblem(lines).None? ==> r.Ok?
    ensures r.Ok? <==> lines != [] && forall i :: 0 <= i < |lines| ==> Fine(lines[i])
    ensures lines != [] && r.Err? ==> IsFirstProblem(lines, r.error)
    ensures r.Ok? ==> IsComputation(lines, r.value)
  {
    if lines == [] {
      return Err(NoLines);
    }
    hide Fine, IsFirstProblem, IsComputation, Rising, Gathered;
    FirstProblemMeans(lines);
    NothingGathered();
    var groups: seq<Group> := [];
    var i := 0;
    while i < |lines|
      invariant 0 <= i <= |lines|
      invariant FirstProblem(lines[..i]).None?
      invariant Gathered(lines[..i], groups)
    {
      assert lines[..i + 1] == lines[..i] + [lines[i]];
      assert lines[..i + 1][..i] == lines[..i];
      if lines[i].amount < 0.0 {
        ProblemStays(lines, i + 1);
        return Err(NegativeAmount);
      }
      if !Allowed(lines[i].taxRate) {
        ProblemStays(lines, i + 1);
        return Err(UnsupportedRate);
      }
      groups := Gather(groups, lines[i], lines[..i]);
      i := i + 1;
    }
    assert lines[..i] == lines;
    SortedGroups(lines, groups);
    var computed := TaxGroups(SortBy(groups, Percent), lines);
    return Ok(computed);
  }

  lemma {:induction false} ProblemStays(lines: seq<TaxLine>, n: nat)
    requires n <= |lines| && FirstProblem(lines[..n]).Some?
    ensures FirstProblem(lines) == FirstProblem(lines[..n])
  {
    if n < |lines| {
      assert lines[..|lines| - 1][..n] == lines[..n];
      ProblemStays(lines[..|lines| - 1], n);
    } else {
      assert lines[..n] == lines;
    }
  }

  ghost predicate IsComputation(lines: seq<TaxLine>, c: Computation) {
    && IsBreakdown(lines, c.byRate)
    && c.totalTaxable == Total(c.byRate, BaseOf)
    && c.totalTax == Total(c.byRate, TaxOf)
    && c.totalAmount == c.totalTaxable + c.totalTax
  }

  /** The entries of the first groups. */
  ghost predicate Taxed(lines: seq<TaxLine>, sorted: seq<Group>, byRate: seq<Breakdown>) {
    && |byRate| <= |sorted|
    && forall j {:trigger byRate[j]} :: 0 <= j < |byRate| ==>
         byRate[j].taxRate == sorted[j].rate && IsEntry(lines, byRate[j])
  }

  lemma AllTaxed(lines: seq<TaxLine>, sorted: seq<Group>, byRate: seq<Breakdown>)
    requires Gathered(lines, sorted) && Rising(sorted) && Taxed(lines, sorted, byRate) && |byRate| == |sorted|
    ensures IsBreakdown(lines, byRate)
  {
    forall m | 0 <= m < |lines|
      ensures HasRate(byRate, lines[m].taxRate)
    {
      assert HasGroup(sorted, lines[m].taxRate);
      var j :| 0 <= j < |sorted| && sorted[j].rate == lines[m].taxRate;
      assert byRate[j].taxRate == lines[m].taxRate;
    }
  }

  method TaxGroups(sorted: seq<Group>, ghost lines: seq<TaxLine>) returns (c: Computation)
    requires Gathered(lines, sorted) && Rising(sorted)
    ensures IsComputation(lines, c)
  {
    var byRate: seq<Breakdown> := [];
    var totalTaxable, totalTax := 0.0, 0.0;
    var i := 0;
    while i < |sorted|
      invariant 0 <= i <= |sorted| && |byRate| == i
      invariant Taxed(lines, sorted, byRate)
      invariant totalTaxable == Total(byRate, BaseOf) && totalTax == Total(byRate, TaxOf)
    {
      assert IsGroup(lines, sorted[i]);
      var tax := CalculateTax(sorted[i].base, sorted[i].rate, false).1;
      var b := Breakdown(sorted[i].rate, sorted[i].base, tax);
      TotalSnoc(byRate, b, BaseOf);
      TotalSnoc(byRate, b, TaxOf);
      byRate := byRate + [b];
      totalTaxable := totalTaxable + b.taxableBase;
      totalTax := totalTax + b.tax as real;
      i := i + 1;
    }
    AllTaxed(lines, sorted, byRate);
    c := Computation(byRate, totalTaxable, totalTax, totalTaxable + totalTax);
  }

  // ----- What the totals are -----

  /** `f` added up rate by rate. */
  function RateByRate(byRate: seq<Breakdown>, lines: seq<TaxLine>, f: TaxLine -> real): real {
    if byRate == [] then 0.0
    else RateByRate(byRate[..|byRate| - 1], lines, f) + Total(lines, At(f, byRate[|byRate| - 1].taxRate))
  }

  lemma {:induction false} RateByRateSnoc(byRate: seq<Breakdown>, lines: seq<TaxLine>, l: TaxLine, f: TaxLine -> real)
    requires Ascending(byRate)
    ensures RateByRate(byRate, lines + [l], f)
         == RateByRate(byRate, lines, f) + if HasRate(byRate, l.taxRate) then f(l) else 0.0
  {
    if byRate != [] {
      var init, last := byRate[..|byRate| - 1], byRate[|byRate| - 1];
      RateByRateSnoc(init, lines, l, f);
      AtSnoc(lines, l, f, last.taxRate);
      if last.taxRate == l.taxRate {
        assert !HasRate(init, l.taxRate);
        assert byRate[|byRate| - 1].taxRate == l.taxRate;
      } else if HasRate(byRate, l.taxRate) {
        var j :| 0 <= j < |byRate| && byRate[j].taxRate == l.taxRate;
        assert init[j].taxRate == l.taxRate;
      } else {
        assert forall j :: 0 <= j < |init| ==> init[j] == byRate[j];
      }
    }
  }

  /** When every line's rate is listed once, adding up rate by rate is adding up. */
  lemma {:induction false} RatesSplitTheLines(byRate: seq<Breakdown>, lines: seq<TaxLine>, f: TaxLine -> real)
    requires Ascending(byRate) && forall i {:trigger lines[i]} :: 0 <= i < |lines| ==> HasRate(byRate, lines[i].taxRate)
    ensures RateByRate(byRate, lines, f) == Total(lines, f)
  {
    if lines == [] {
      NoLinesNoSum(byRate, f);
    } else {
      var init, last := lines[..|lines| - 1], lines[|lines| - 1];
      assert lines == init + [last];
      RatesSplitTheLines(byRate, init, f);
      RateByRateSnoc(byRate, init, last, f);
    }
  }

  lemma {:induction false} NoLinesNoSum(byRate: seq<Breakdown>, f: TaxLine -> real)
    ensures RateByRate(byRate, [], f) == 0.0
  {
    if byRate != [] {
      NoLinesNoSum(byRate[..|byRate| - 1], f);
    }
  }

  /** One more amount under the truncation: nothing is lost, and at most a yen is gained. */
  lemma OneMoreAmount(base: Money, amount: Money, rate: real)
    requires base >= 0.0 && amount >= 0.0 && rate >= 0.0
    ensures AddedTax(base, rate) + AddedTax(amount, rate) <= AddedTax(base + amount, rate)
    ensures AddedTax(base + amount, rate) <= AddedTax(base, rate) + AddedTax(amount, rate) + 1
  {
    var x, y := base * rate, amount * rate;
    assert x >= 0.0 && y >= 0.0 && (base + amount) * rate == x + y;
  }

  /** A rate occurs when it counts a line; one that does not has no base. */
  lemma {:induction false} RateCount(lines: seq<TaxLine>, rate: real)
    requires forall i :: 0 <= i < |lines| ==> lines[i].amount >= 0.0
    ensures Total(lines, At(One, rate)) == 0.0 || Total(lines, At(One, rate)) >= 1.0
    ensures Occurs(lines, rate) <==> Total(lines, At(One, rate)) >= 1.0
    ensures !Occurs(lines, rate) ==> Total(lines, At(AmountOf, rate)) == 0.0
    ensures Total(lines, At(AmountOf, rate)) >= 0.0
  {
    if lines != [] {
      var init, last := lines[..|lines| - 1], lines[|lines| - 1];
      assert lines == init + [last];
      RateCount(init, rate);
      OccursSnoc(init, last, rate);
      AtSnoc(init, last, One, rate);
      AtSnoc(init, last, AmountOf, rate);
    }
  }

  /** One rate: truncating once loses nothing against truncating line by line, and gains less than a yen a line. */
  lemma {:induction false} RateTaxBounds(lines: seq<TaxLine>, rate: real)
    requires rate >= 0.0 && forall i :: 0 <= i < |lines| ==> lines[i].amount >= 0.0
    ensures
      var tax := AddedTax(Total(lines, At(AmountOf, rate)), rate) as real;
      var byLine, count := Total(lines, At(LineTax, rate)), Total(lines, At(One, rate));
      byLine <= tax <= byLine + if count >= 1.0 then count - 1.0 else 0.0
  {
    if lines != [] {
      var init, last := lines[..|lines| - 1], lines[|lines| - 1];
      assert lines == init + [last];
      RateTaxBounds(init, rate);
      RateCount(init, rate);
      AtSnoc(init, last, One, rate);
      AtSnoc(init, last, AmountOf, rate);
      AtSnoc(init, last, LineTax, rate);
      if last.taxRate == rate {
        OneMoreAmount(Total(init, At(AmountOf, rate)), last.amount, rate);
      }
    }
  }

  /** The sums over the entries against the sums rate by rate. */
  lemma {:induction false} BreakdownSums(lines: seq<TaxLine>, byRate: seq<Breakdown>)
    requires forall i :: 0 <= i < |lines| ==> LineProblem(lines[i]).None?
    requires forall j {:trigger byRate[j]} :: 0 <= j < |byRate| ==> IsEntry(lines, byRate[j])
    ensures Total(byRate, BaseOf) == RateByRate(byRate, lines, AmountOf)
    ensures RateByRate(byRate, lines, LineTax) <= Total(byRate, TaxOf)
    ensures Total(byRate, TaxOf)
         <= RateByRate(byRate, lines, LineTax) + RateByRate(byRate, lines, One) - |byRate| as real
  {
    if byRate != [] {
      var init, last := byRate[..|byRate| - 1], byRate[|byRate| - 1];
      forall j | 0 <= j < |init|
        ensures IsEntry(lines, init[j])
      {
        assert init[j] == byRate[j];
      }
      BreakdownSums(lines, init);
      EntrySums(lines, last);
    }
  }

  lemma EntrySums(lines: seq<TaxLine>, b: Breakdown)
    requires IsEntry(lines, b) && forall i :: 0 <= i < |lines| ==> LineProblem(lines[i]).None?
    ensures b.taxableBase == Total(lines, At(AmountOf, b.taxRate))
    ensures Total(lines, At(LineTax, b.taxRate)) <= b.tax as real
    ensures b.tax as real <= Total(lines, At(LineTax, b.taxRate)) + Total(lines, At(One, b.taxRate)) - 1.0
  {
    var i :| 0 <= i < |lines| && lines[i].taxRate == b.taxRate;
    assert Allowed(lines[i].taxRate);
    RateCount(lines, b.taxRate);
    RateTaxBounds(lines, b.taxRate);
  }

  lemma {:induction false} CountIsLength(lines: seq<TaxLine>)
    ensures Total(lines, One) == |lines| as real
  {
    if lines != [] {
      CountIsLength(lines[..|lines| - 1]);
    }
  }

  /**
    * The taxable total is the sum of the lines. The invoice's tax is at least what truncating line by line would
    * give, and exceeds that by at most one yen for every line beyond the first of its rate.
    */
  lemma InvoiceTotals(lines: seq<TaxLine>, c: Computation)
    requires FirstProblem(lines).None? && IsComputation(lines, c)
    ensures c.totalTaxable == Total(lines, AmountOf)
    ensures Total(lines, LineTax) <= c.totalTax <= Total(lines, LineTax) + |lines| as real - |c.byRate| as real
  {
    NoProblemAnywhere(lines);
    BreakdownSums(lines, c.byRate);
    RatesSplitTheLines(c.byRate, lines, AmountOf);
    RatesSplitTheLines(c.byRate, lines, LineTax);
    RatesSplitTheLines(c.byRate, lines, One);
    CountIsLength(lines);
  }

  /** The lines leave no choice: two computations for them are the same. */
  lemma ComputationIsUnique(lines: seq<TaxLine>, a: Computation, b: Computation)
    requires IsComputation(lines, a) && IsComputation(lines, b)
    ensures a == b
  {
    SameBreakdown(lines, a.byRate, b.byRate, |a.byRate|);
    SameBreakdown(lines, b.byRate, a.byRate, |b.byRate|);
    assert a.byRate == b.byRate;
  }

  lemma {:induction false} SameBreakdown(lines: seq<TaxLine>, a: seq<Breakdown>, b: seq<Breakdown>, n: nat)
    requires IsBreakdown(lines, a) && IsBreakdown(lines, b) && n <= |a|
    ensures n <= |b| && a[..n] == b[..n]
  {
    if n > 0 {
      SameBreakdown(lines, a, b, n - 1);
      SameNext(lines, a, b, n - 1);
      assert a[..n] == a[..n - 1] + [a[n - 1]] && b[..n] == b[..n - 1] + [b[n - 1]];
    }
  }

  lemma SameNext(lines: seq<TaxLine>, a: seq<Breakdown>, b: seq<Breakdown>, n: nat)
    requires IsBreakdown(lines, a) && IsBreakdown(lines, b) && n < |a| && n <= |b| && a[..n] == b[..n]
    ensures n < |b| && a[n] == b[n]
  {
    var j := PlaceOf(lines, a, b, n);
    NotBefore(a, b, n, n, j);
    var m := PlaceOf(lines, b, a, n);
    NotBefore(b, a, n, n, m);
    assert IsEntry(lines, a[n]) && IsEntry(lines, b[n]);
  }

  /** An entry past the common part is matched past the common part. */
  lemma NotBefore(a: seq<Breakdown>, b: seq<Breakdown>, n: nat, k: nat, j: nat)
    requires Ascending(a) && n <= k < |a| && j < |b| && n <= |b| && a[..n] == b[..n] && b[j].taxRate == a[k].taxRate
    ensures j >= n
  {
    assert forall i :: 0 <= i < n ==> a[..n][i] == b[..n][i];
  }

  lemma PlaceOf(lines: seq<TaxLine>, a: seq<Breakdown>, b: seq<Breakdown>, k: nat) returns (j: nat)
    requires IsBreakdown(lines, a) && IsBreakdown(lines, b) && k < |a|
    ensures j < |b| && b[j].taxRate == a[k].taxRate
  {
    assert IsEntry(lines, a[k]);
    var i :| 0 <= i < |lines| && lines[i].taxRate == a[k].taxRate;
    assert HasRate(b, lines[i].taxRate);
    j :| 0 <= j < |b| && b[j].taxRate == a[k].taxRate;
  }
}
