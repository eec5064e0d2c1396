/** Closing the sales of a period: one invoice a customer and closing date, its due date and its journal draft. */
module SalesClosing {
  import opened Wrappers
  import opened Sums
  import opened Lists
  import opened Sorting
  import opened Calendar
  import opened PaymentTerms
  import opened InvoiceTax
  import opened Journal

  datatype SalesLine = SalesLine(
    lineId: string, customerCode: string, customerName: string, salesDate: Date, amount: Money, taxRate: real)

  datatype BillingTerms = BillingTerms(customerCode: string, terms: Terms)

  datatype Invoice = Invoice(
    customerCode: string, customerName: string, closingDate: Date, dueDate: int, lineIds: seq<string>,
    tax: Computation, draft: Draft)

  datatype Closing = Closing(
    invoices: seq<Invoice>, totalTaxable: Money, totalTax: Money, totalAmount: Money, balanced: bool)

  datatype ClosingError =
    | DuplicateTerms | DuplicateLineIds | NegativeLine | MissingTerms(customerCode: string)
    | BadTerms(error: TermsError) | BadTax(taxError: TaxError) | UnbalancedDraft(customerCode: string)

  function LineAmount(l: SalesLine): Money { l.amount }

  // ----- Terms and closing dates -----

  function TermsFor(terms: seq<BillingTerms>, customer: string): Option<Terms> {
    if terms == [] then None
    else if terms[|terms| - 1].customerCode == customer then Some(terms[|terms| - 1].terms)
    else TermsFor(terms[..|terms| - 1], customer)
  }

  /** What stops a line from being put under a closing date. */
  function GroupingProblem(l: SalesLine, terms: seq<BillingTerms>): Option<ClosingError> {
    if l.amount < 0.0 then Some(NegativeLine)
    else
      var t := TermsFor(terms, l.customerCode);
      if t.None? then Some(MissingTerms(l.customerCode))
      else if t.value.closingDay < 1 || t.value.closingDay > 31 then Some(BadTerms(ClosingDayOutOfRange))
      else None
  }

  function FirstGroupingProblem(lines: seq<SalesLine>, terms: seq<BillingTerms>): Option<ClosingError> {
    if lines == [] then None
    else
      var before := FirstGroupingProblem(lines[..|lines| - 1], terms);
      if before.Some? then before else GroupingProblem(lines[|lines| - 1], terms)
  }

  ghost predicate Datable(lines: seq<SalesLine>, terms: seq<BillingTerms>) {
    forall i {:trigger lines[i]} :: 0 <= i < |lines| ==>
      Valid(lines[i].salesDate) && GroupingProblem(lines[i], terms).None?
  }

  function ClosingOf(l: SalesLine, terms: seq<BillingTerms>): Date
    requires Valid(l.salesDate) && GroupingProblem(l, terms).None?
  {
    ClosingDate(l.salesDate, TermsFor(terms, l.customerCode).value.closingDay).value
  }

  /** The lines of one customer that close on one date. */
  predicate Belongs(l: SalesLine, customer: string, closing: Date, terms: seq<BillingTerms>) {
    && Valid(l.salesDate) && GroupingProblem(l, terms).None?
    && l.customerCode == customer && ClosingOf(l, terms) == closing
  }

  function BelongsTo(customer: string, closing: Date, terms: seq<BillingTerms>): SalesLine -> bool {
    (l: SalesLine) => Belongs(l, customer, closing, terms)
  }

  function LinesOf(lines: seq<SalesLine>, customer: string, closing: Date, terms: seq<BillingTerms>): seq<SalesLine> {
    Filter(lines, BelongsTo(customer, closing, terms))
  }

  // ----- Grouping -----

  datatype Bundle = Bundle(customer: string, closing: Date, lines: seq<SalesLine>)

  predicate SameKey(a: Bundle, b: Bundle) {
    a.customer == b.customer && a.closing == b.closing
  }

  /** The group of a key holds the lines of that key, in their order, and there is at least one. */
  ghost predicate IsBundle(lines: seq<SalesLine>, terms: seq<BillingTerms>, g: Bundle) {
    && Valid(g.closing) && g.lines != []
    && g.lines == LinesOf(lines, g.customer, g.closing, terms)
  }

  ghost predicate HasBundle(bundles: seq<Bundle>, customer: string, closing: Date) {
    exists j :: 0 <= j < |bundles| && bundles[j].customer == customer && bundles[j].closing == closing
  }

  ghost predicate KeysDiffer(bundles: seq<Bundle>) {
    forall i, j :: 0 <= i < j < |bundles| ==> !SameKey(bundles[i], bundles[j])
  }

  ghost predicate Bundled(lines: seq<SalesLine>, terms: seq<BillingTerms>, bundles: seq<Bundle>)
    requires Datable(lines, terms)
  {
    && KeysDiffer(bundles)
    && (forall j {:trigger bundles[j]} :: 0 <= j < |bundles| ==> IsBundle(lines, terms, bundles[j]))
    && forall i {:trigger lines[i]} :: 0 <= i < |lines| ==>
         HasBundle(bundles, lines[i].customerCode, ClosingOf(lines[i], terms))
  }

  lemma LinesOfSnoc(lines: seq<SalesLine>, l: SalesLine, customer: string, closing: Date, terms: seq<BillingTerms>)
    ensures LinesOf(lines + [l], customer, closing, terms)
         == LinesOf(lines, customer, closing, terms) + if Belongs(l, customer, closing, terms) then [l] else []
  {
    assert (lines + [l])[..|lines|] == lines;
  }

  lemma BundleGrows(lines: seq<SalesLine>, l: SalesLine, terms: seq<BillingTerms>, g: Bundle)
    requires IsBundle(lines, terms, g)
    ensures IsBundle(lines + [l], terms,
      if Belongs(l, g.customer, g.closing, terms) then g.(lines := g.lines + [l]) else g)
  {
    LinesOfSnoc(lines, l, g.customer, g.closing, terms);
  }

  lemma {:induction false} NoBundleNoLines(
    lines: seq<SalesLine>, terms: seq<BillingTerms>, bundles: seq<Bundle>, customer: string, closing: Date, n: nat)
    requires Datable(lines, terms) && Bundled(lines, terms, bundles)
    requires !HasBundle(bundles, customer, closing) && n <= |lines|
    ensures LinesOf(lines[..n], customer, closing, terms) == []
  {
    if n > 0 {
      NoBundleNoLines(lines, terms, bundles, customer, closing, n - 1);
      assert lines[..n] == lines[..n - 1] + [lines[n - 1]];
      LinesOfSnoc(lines[..n - 1], lines[n - 1], customer, closing, terms);
      assert HasBundle(bundles, lines[n - 1].customerCode, ClosingOf(lines[n - 1], terms));
    }
  }

  method AddLine(
    bundles: seq<Bundle>, l: SalesLine, closing: Date, ghost lines: seq<SalesLine>, terms: seq<BillingTerms>)
    returns (r: seq<Bundle>)
    requires Datable(lines, terms) && Bundled(lines, terms, bundles)
    requires Valid(l.salesDate) && GroupingProblem(l, terms).None? && closing == ClosingOf(l, terms) && Valid(closing)
    ensures Datable(lines + [l], terms) && Bundled(lines + [l], terms, r)
  {
    var j := 0;
    while j < |bundles| && !(bundles[j].customer == l.customerCode && bundles[j].closing == closing)
      invariant 0 <= j <= |bundles|
      invariant forall i :: 0 <= i < j ==> !(bundles[i].customer == l.customerCode && bundles[i].closing == closing)
    {
      j := j + 1;
    }
    if j == |bundles| {
      r := bundles + [Bundle(l.customerCode, closing, [] + [l])];
      NoBundleNoLines(lines, terms, bundles, l.customerCode, closing, |lines|);
      assert lines[..|lines|] == lines;
      LinesOfSnoc(lines, l, l.customerCode, closing, terms);
    } else {
      r := bundles[j := bundles[j].(lines := bundles[j].lines + [l])];
    }
    assert KeysDiffer(r);
    forall i | 0 <= i < |r|
      ensures IsBundle(lines + [l], terms, r[i])
    {
      if i < |bundles| {
        assert IsBundle(lines, terms, bundles[i]);
        BundleGrows(lines, l, terms, bundles[i]);
        assert i > j ==> !SameKey(bundles[j], bundles[i]);
      }
    }
    EveryLineHasABundle(lines, l, terms, bundles, r, j);
  }

  lemma EveryLineHasABundle(
    lines: seq<SalesLine>, l: SalesLine, terms: seq<BillingTerms>, bundles: seq<Bundle>, r: seq<Bundle>, j: nat)
    requires Datable(lines, terms) && Bundled(lines, terms, bundles)
    requires Valid(l.salesDate) && GroupingProblem(l, terms).None?
    requires |bundles| <= |r| && forall i :: 0 <= i < |bundles| ==> SameKey(bundles[i], r[i])
    requires j < |r| && r[j].customer == l.customerCode && r[j].closing == ClosingOf(l, terms)
    ensures Datable(lines + [l], terms)
    ensures forall i {:trigger (lines + [l])[i]} :: 0 <= i < |lines + [l]| ==>
      HasBundle(r, (lines + [l])[i].customerCode, ClosingOf((lines + [l])[i], terms))
  {
    forall i | 0 <= i < |lines + [l]|
      ensures HasBundle(r, (lines + [l])[i].customerCode, ClosingOf((lines + [l])[i], terms))
    {
      if i < |lines| {
        assert HasBundle(bundles, lines[i].customerCode, ClosingOf(lines[i], terms));
        var m :| 0 <= m < |bundles| && bundles[m].customer == lines[i].customerCode
          && bundles[m].closing == ClosingOf(lines[i], terms);
        assert SameKey(bundles[m], r[m]);
      }
    }
  }

  // ----- One invoice -----

  function Taxable(lines: seq<SalesLine>): seq<TaxLine> {
    if lines == [] then []
    else Taxable(lines[..|lines| - 1]) + [TaxLine(lines[|lines| - 1].amount, lines[|lines| - 1].taxRate)]
  }

  function Ids(lines: seq<SalesLine>): seq<string> {
    if lines == [] then [] else Ids(lines[..|lines| - 1]) + [lines[|lines| - 1].lineId]
  }

  lemma {:induction false} TaxableLines(lines: seq<SalesLine>)
    ensures |Taxable(lines)| == |lines|
    ensures forall i {:trigger Taxable(lines)[i]} :: 0 <= i < |lines| ==>
      Taxable(lines)[i] == TaxLine(lines[i].amount, lines[i].taxRate)
  {
    if lines != [] {
      TaxableLines(lines[..|lines| - 1]);
    }
  }

  lemma {:induction false} TaxableTotal(lines: seq<SalesLine>)
    ensures Total(Taxable(lines), AmountOf) == Total(lines, LineAmount)
  {
    if lines != [] {
      var init, last := lines[..|lines| - 1], lines[|lines| - 1];
      TaxableTotal(init);
      TotalSnoc(Taxable(init), TaxLine(last.amount, last.taxRate), AmountOf);
    }
  }

  lemma {:induction false} IdsAt(lines: seq<SalesLine>)
    ensures |Ids(lines)| == |lines| && forall i :: 0 <= i < |lines| ==> Ids(lines)[i] == lines[i].lineId
  {
    if lines != [] {
      IdsAt(lines[..|lines| - 1]);
    }
  }

  lemma {:induction false} IdsMembers(lines: seq<SalesLine>, id: string)
    ensures id in Ids(lines) <==> exists i :: 0 <= i < |lines| && lines[i].lineId == id
  {
    if lines != [] {
      var init := lines[..|lines| - 1];
      IdsMembers(init, id);
      if i :| 0 <= i < |lines| && lines[i].lineId == id {
        assert i < |init| ==> init[i].lineId == id;
      }
    }
  }

  function RateText(rate: real): string {
    if rate == 0.10 then "0.10" else if rate == 0.08 then "0.08" else "0.00"
  }

  function RevenueLines(byRate: seq<Breakdown>): seq<Line> {
    if byRate == [] then []
    else
      var lines, last := RevenueLines(byRate[..|byRate| - 1]), byRate[|byRate| - 1];
      if last.taxableBase > 0.0 then lines + [RevenueLine(last)] else lines
  }

  function RevenueLine(b: Breakdown): Line {
    Line(SalesRevenue, 0.0, b.taxableBase, RateText(b.taxRate))
  }

  function JournalLines(c: Computation): seq<Line> {
    [Line(AccountsReceivable, c.totalAmount, 0.0, "")] + RevenueLines(c.byRate)
    + [Line(ConsumptionTaxPayable, 0.0, c.totalTax, "")]
  }

  function SalesDraftOf(customer: string, closing: Date, c: Computation): Result<Draft, Unbalanced>
    requires Valid(closing)
  {
    Build(SalesDraft, customer, DayNumber(closing), JournalLines(c))
  }

  lemma BaseSnoc(byRate: seq<Breakdown>)
    requires byRate != []
    ensures Total(byRate, BaseOf) == Total(byRate[..|byRate| - 1], BaseOf) + byRate[|byRate| - 1].taxableBase
  {
  }

  lemma {:induction false} RevenueIsNotNegative(byRate: seq<Breakdown>)
    requires forall j :: 0 <= j < |byRate| ==> byRate[j].taxableBase >= 0.0
    ensures NoNegativeLine(RevenueLines(byRate))
  {
    if byRate != [] {
      RevenueIsNotNegative(byRate[..|byRate| - 1]);
    }
  }

  lemma {:induction false} RevenueSums(byRate: seq<Breakdown>, role: Role)
    requires forall j :: 0 <= j < |byRate| ==> byRate[j].taxableBase >= 0.0
    ensures Total(RevenueLines(byRate), DebitOf) == 0.0 == RoleDebit(RevenueLines(byRate), role)
    ensures Total(RevenueLines(byRate), CreditOf) == Total(byRate, BaseOf)
    ensures RoleCredit(RevenueLines(byRate), role) == if role == SalesRevenue then Total(byRate, BaseOf) else 0.0
  {
    if byRate != [] {
      hide Total, RoleDebit, RoleCredit;
      var init, last := byRate[..|byRate| - 1], byRate[|byRate| - 1];
      RevenueSums(init, role);
      BaseSnoc(byRate);
      var before, l := RevenueLines(init), RevenueLine(last);
      if last.taxableBase > 0.0 {
        assert RevenueLines(byRate) == before + [l];
        SumsSnoc(before, l, role);
      } else {
        assert RevenueLines(byRate) == before;
      }
    }
  }

  lemma NoNegativeAmounts(lines: seq<TaxLine>, c: Computation)
    requires FirstProblem(lines).None? && IsComputation(lines, c)
    ensures c.totalTax >= 0.0 && forall j :: 0 <= j < |c.byRate| ==> c.byRate[j].taxableBase >= 0.0
  {
    NoProblemAnywhere(lines);
    forall j | 0 <= j < |c.byRate|
      ensures c.byRate[j].taxableBase >= 0.0 && c.byRate[j].tax >= 0
    {
      assert IsEntry(lines, c.byRate[j]);
      RateCount(lines, c.byRate[j].taxRate);
      EntryTax(lines, c.byRate[j]);
    }
    forall b | b in c.byRate
      ensures TaxOf(b) >= 0.0
    {
      var j :| 0 <= j < |c.byRate| && c.byRate[j] == b;
    }
    TotalNonNegative(c.byRate, TaxOf);
  }

  lemma EntryTax(lines: seq<TaxLine>, b: Breakdown)
    requires IsEntry(lines, b) && b.taxableBase >= 0.0
    requires forall i :: 0 <= i < |lines| ==> LineProblem(lines[i]).None?
    ensures b.tax >= 0
  {
    var i :| 0 <= i < |lines| && lines[i].taxRate == b.taxRate;
    assert Allowed(lines[i].taxRate);
  }

  lemma JournalSums(c: Computation, middle: seq<Line>, role: Role)
    requires middle == RevenueLines(c.byRate) && NoNegativeLine(middle) && c.totalTax >= 0.0 && c.totalAmount >= 0.0
    ensures NoNegativeLine(JournalLines(c))
    ensures Total(JournalLines(c), DebitOf) == c.totalAmount + Total(middle, DebitOf)
    ensures Total(JournalLines(c), CreditOf) == Total(middle, CreditOf) + c.totalTax
    ensures RoleDebit(JournalLines(c), role)
         == RoleDebit(middle, role) + if role == AccountsReceivable then c.totalAmount else 0.0
    ensures RoleCredit(JournalLines(c), role)
         == RoleCredit(middle, role) + if role == ConsumptionTaxPayable then c.totalTax else 0.0
  {
    var first := Line(AccountsReceivable, c.totalAmount, 0.0, "");
    var last := Line(ConsumptionTaxPayable, 0.0, c.totalTax, "");
    SumsSnoc([], first, role);
    assert [] + [first] == [first];
    SumsConcat([first], middle, role);
    SumsSnoc([first] + middle, last, role);
  }

  /** The draft of an invoice always balances, and books its amounts under receivables, sales and tax. */
  lemma SalesDraftBooks(lines: seq<TaxLine>, customer: string, closing: Date, c: Computation)
    requires FirstProblem(lines).None? && IsComputation(lines, c) && Valid(closing)
    ensures SalesDraftOf(customer, closing, c).Ok?
    ensures
      var d := SalesDraftOf(customer, closing, c).value;
      && d.totalDebit == d.totalCredit == c.totalAmount
      && RoleDebit(d.lines, AccountsReceivable) == c.totalAmount
      && RoleCredit(d.lines, SalesRevenue) == c.totalTaxable
      && RoleCredit(d.lines, ConsumptionTaxPayable) == c.totalTax
  {
    SalesDraftRole(lines, customer, closing, c, AccountsReceivable);
    SalesDraftRole(lines, customer, closing, c, SalesRevenue);
    SalesDraftRole(lines, customer, closing, c, ConsumptionTaxPayable);
  }

  lemma SalesDraftRole(lines: seq<TaxLine>, customer: string, closing: Date, c: Computation, role: Role)
    requires FirstProblem(lines).None? && IsComputation(lines, c) && Valid(closing)
    ensures SalesDraftOf(customer, closing, c).Ok?
    ensures
      var d := SalesDraftOf(customer, closing, c).value;
      && d.totalDebit == d.totalCredit == c.totalAmount
      && RoleDebit(d.lines, role) == (if role == AccountsReceivable then c.totalAmount else 0.0)
      && RoleCredit(d.lines, role) == (if role == SalesRevenue then c.totalTaxable
                                       else if role == ConsumptionTaxPayable then c.totalTax else 0.0)
  {
    NoNegativeAmounts(lines, c);
    RevenueSums(c.byRate, role);
    RevenueIsNotNegative(c.byRate);
    forall b | b in c.byRate
      ensures BaseOf(b) >= 0.0
    {
    }
    TotalNonNegative(c.byRate, BaseOf);
    JournalSums(c, RevenueLines(c.byRate), role);
    BuildKeepsSums(SalesDraft, customer, DayNumber(closing), JournalLines(c), role);
  }

  lemma {:induction false} RevenueMembers(byRate: seq<Breakdown>)
    ensures forall l :: l in RevenueLines(byRate) <==>
      exists b :: b in byRate && b.taxableBase > 0.0 && l == RevenueLine(b)
  {
    if byRate != [] {
      var init := byRate[..|byRate| - 1];
      assert byRate == init + [byRate[|byRate| - 1]];
      RevenueMembers(init);
    }
  }

  /** The draft names the customer and the closing date, and has a line for each amount that is not nothing: the
      receivable, the sales of each rate under that rate, the tax. */
  lemma SalesDraftNames(lines: seq<TaxLine>, customer: string, closing: Date, c: Computation)
    requires FirstProblem(lines).None? && IsComputation(lines, c) && Valid(closing)
    ensures SalesDraftOf(customer, closing, c).Ok?
    ensures
      var d := SalesDraftOf(customer, closing, c).value;
      && d.kind == SalesDraft && d.reference == customer && d.date == DayNumber(closing)
      && (forall b :: b in c.byRate && b.taxableBase > 0.0 ==> HasLineOf(d.lines, b))
      && forall l :: l in d.lines ==>
           && (l.debit > 0.0 || l.credit > 0.0)
           && (l == Line(AccountsReceivable, c.totalAmount, 0.0, "")
               || l == Line(ConsumptionTaxPayable, 0.0, c.totalTax, "")
               || exists b :: b in c.byRate && IsLineOf(l, b))
  {
    hide RoleDebit, RoleCredit, Total, IsComputation, FirstProblem, RevenueLines, Kept, NoNegativeLine;
    SalesDraftRole(lines, customer, closing, c, AccountsReceivable);
    NoNegativeAmounts(lines, c);
    RevenueIsNotNegative(c.byRate);
    RevenueMembers(c.byRate);
    NoNegativeTotals(lines, c);
    BuildKeepsSums(SalesDraft, customer, DayNumber(closing), JournalLines(c), AccountsReceivable);
    RatesAreAllowed(lines, c);
    var d := SalesDraftOf(customer, closing, c).value;
    forall b | b in c.byRate && b.taxableBase > 0.0
      ensures HasLineOf(d.lines, b)
    {
      assert RevenueLine(b) in RevenueLines(c.byRate) && RevenueLine(b) in JournalLines(c);
      assert IsLineOf(RevenueLine(b), b);
    }
    forall l | l in d.lines && l in RevenueLines(c.byRate)
      ensures exists b :: b in c.byRate && IsLineOf(l, b)
    {
      var b :| b in c.byRate && b.taxableBase > 0.0 && l == RevenueLine(b);
      assert IsLineOf(l, b);
    }
  }

  lemma NoNegativeTotals(lines: seq<TaxLine>, c: Computation)
    requires FirstProblem(lines).None? && IsComputation(lines, c)
    ensures NoNegativeLine(JournalLines(c))
  {
    NoNegativeAmounts(lines, c);
    RevenueIsNotNegative(c.byRate);
    forall b | b in c.byRate
      ensures BaseOf(b) >= 0.0
    {
    }
    TotalNonNegative(c.byRate, BaseOf);
    JournalSums(c, RevenueLines(c.byRate), AccountsReceivable);
  }

  lemma RatesAreAllowed(lines: seq<TaxLine>, c: Computation)
    requires FirstProblem(lines).None? && IsComputation(lines, c)
    ensures forall b :: b in c.byRate ==> b.taxRate in {0.10, 0.08, 0.0}
  {
    FirstProblemMeans(lines);
    forall b | b in c.byRate
      ensures b.taxRate in {0.10, 0.08, 0.0}
    {
      var j :| 0 <= j < |c.byRate| && c.byRate[j] == b;
      assert IsEntry(lines, c.byRate[j]);
      var i :| 0 <= i < |lines| && lines[i].taxRate == b.taxRate;
      assert Fine(lines[i]);
    }
  }

  /** The sales of one rate, under a text that tells the rate. */
  ghost predicate IsLineOf(l: Line, b: Breakdown) {
    && l.role == SalesRevenue && l.debit == 0.0 && l.credit == b.taxableBase
    && (b.taxRate == 0.10 <==> l.reference == "0.10") && (b.taxRate == 0.08 <==> l.reference == "0.08")
    && (b.taxRate == 0.0 <==> l.reference == "0.00")
  }

  ghost predicate HasLineOf(lines: seq<Line>, b: Breakdown) {
    exists l :: l in lines && IsLineOf(l, b)
  }

  // ----- The whole closing -----

  predicate UniqueCustomers(terms: seq<BillingTerms>) {
    forall i, j :: 0 <= i < j < |terms| ==> terms[i].customerCode != terms[j].customerCode
  }

  predicate UniqueLineIds(lines: seq<SalesLine>) {
    forall i, j :: 0 <= i < j < |lines| ==> lines[i].lineId != lines[j].lineId
  }

  /** What stops a dated line from being invoiced. */
  function InvoicingProblem(l: SalesLine, terms: seq<BillingTerms>): Option<ClosingError>
    requires GroupingProblem(l, terms).None?
  {
    if !Allowed(l.taxRate) then Some(BadTax(UnsupportedRate))
    else
      var problem := TermsProblem(TermsFor(terms, l.customerCode).value);
      if problem.Some? then Some(BadTerms(problem.value)) else None
  }

  ghost predicate TermsFit(t: Terms) {
    && 1 <= t.closingDay <= 31 && 1 <= t.paymentDay <= 31 && t.paymentMonthOffset >= 0
    && t.adjustment in {Next, Previous, NoAdjustment}
  }

  /** What a line must be: not negative, at a rate of ten, eight or zero percent, under terms of its customer. */
  ghost predicate LineFits(l: SalesLine, terms: seq<BillingTerms>) {
    && l.amount >= 0.0 && l.taxRate in {0.10, 0.08, 0.0}
    && exists k :: 0 <= k < |terms| && terms[k].customerCode == l.customerCode && TermsFit(terms[k].terms)
  }

  ghost predicate HasTerms(terms: seq<BillingTerms>, customer: string, t: Terms) {
    exists k :: 0 <= k < |terms| && terms[k].customerCode == customer && terms[k].terms == t
  }

  lemma {:induction false} TermsForMeans(terms: seq<BillingTerms>, customer: string)
    ensures TermsFor(terms, customer).Some? ==> HasTerms(terms, customer, TermsFor(terms, customer).value)
    ensures TermsFor(terms, customer).None? <==> forall k :: 0 <= k < |terms| ==> terms[k].customerCode != customer
  {
    if terms != [] {
      var n := |terms| - 1;
      TermsForMeans(terms[..n], customer);
      if terms[n].customerCode != customer && TermsFor(terms[..n], customer).Some? {
        var k :| 0 <= k < n && terms[..n][k].customerCode == customer
          && terms[..n][k].terms == TermsFor(terms, customer).value;
        assert terms[k] == terms[..n][k];
      }
    }
  }

  /** What a line is refused with before anything is invoiced. */
  lemma GroupingRefusedExactlyWhen(l: SalesLine, terms: seq<BillingTerms>)
    ensures
      var e := GroupingProblem(l, terms);
      && (e == Some(NegativeLine) <==> l.amount < 0.0)
      && (e == Some(MissingTerms(l.customerCode)) <==>
            l.amount >= 0.0 && forall k :: 0 <= k < |terms| ==> terms[k].customerCode != l.customerCode)
      && (e.Some? && l.amount >= 0.0 && (exists k :: 0 <= k < |terms| && terms[k].customerCode == l.customerCode) ==>
            e == Some(BadTerms(ClosingDayOutOfRange)))
  {
    TermsForMeans(terms, l.customerCode);
  }

  /** The input a closing accepts, on the fields. */
  lemma ClosableExactlyWhen(lines: seq<SalesLine>, terms: seq<BillingTerms>)
    ensures Closable(lines, terms) <==>
      && (forall i, j :: 0 <= i < j < |terms| ==> terms[i].customerCode != terms[j].customerCode)
      && (forall i, j :: 0 <= i < j < |lines| ==> lines[i].lineId != lines[j].lineId)
      && forall i :: 0 <= i < |lines| ==> LineFits(lines[i], terms)
  {
    if UniqueCustomers(terms) {
      forall i | 0 <= i < |lines|
        ensures LineFits(lines[i], terms) <==>
          GroupingProblem(lines[i], terms).None? && InvoicingProblem(lines[i], terms).None?
      {
        LineFitsExactlyWhen(lines[i], terms);
      }
    }
  }

  lemma LineFitsExactlyWhen(l: SalesLine, terms: seq<BillingTerms>)
    requires UniqueCustomers(terms)
    ensures LineFits(l, terms) <==> GroupingProblem(l, terms).None? && InvoicingProblem(l, terms).None?
  {
    TermsForMeans(terms, l.customerCode);
    if TermsFor(terms, l.customerCode).Some? {
      var t := TermsFor(terms, l.customerCode).value;
      var k :| 0 <= k < |terms| && terms[k].customerCode == l.customerCode && terms[k].terms == t;
      assert forall m :: 0 <= m < |terms| && terms[m].customerCode == l.customerCode ==> m == k;
      TermsRefusedExactlyWhen(t);
    }
  }

  ghost predicate IsInvoice(lines: seq<SalesLine>, terms: seq<BillingTerms>, holidays: seq<int>, inv: Invoice) {
    var own := LinesOf(lines, inv.customerCode, inv.closingDate, terms);
    var t := TermsFor(terms, inv.customerCode);
    && Valid(inv.closingDate) && own != []
    && inv.lineIds == Ids(own) && |inv.lineIds| == |own|
    && (forall k {:trigger own[k]} :: 0 <= k < |own| ==> inv.lineIds[k] == own[k].lineId)
    && inv.customerName == own[0].customerName
    && FirstProblem(Taxable(own)).None? && IsComputation(Taxable(own), inv.tax)
    && t.Some? && TermsProblem(t.value).None? && IsPaymentDay(inv.closingDate, t.value, holidays, inv.dueDate)
    && SalesDraftOf(inv.customerCode, inv.closingDate, inv.tax) == Ok(inv.draft)
  }

  function BundleKey(b: Bundle): Key {
    Key(if Valid(b.closing) then DayNumber(b.closing) else 0, b.customer)
  }

  function TaxableOf(inv: Invoice): Money { inv.tax.totalTaxable }
  function TaxIn(inv: Invoice): Money { inv.tax.totalTax }
  function AmountIn(inv: Invoice): Money { inv.tax.totalAmount }

  ghost predicate InOrder(invoices: seq<Invoice>) {
    forall i, j {:trigger invoices[i], invoices[j]} :: 0 <= i < j < |invoices| ==> Before(invoices[i], invoices[j])
  }

  /** Earlier closing dates first, customers in text order within a date, no customer twice on one date. */
  ghost predicate Before(a: Invoice, b: Invoice) {
    && Valid(a.closingDate) && Valid(b.closingDate)
    && KeyLeq(Key(DayNumber(a.closingDate), a.customerCode), Key(DayNumber(b.closingDate), b.customerCode))
    && !(a.customerCode == b.customerCode && a.closingDate == b.closingDate)
  }

  ghost predicate HasInvoice(invoices: seq<Invoice>, customer: string, closing: Date) {
    exists j :: 0 <= j < |invoices| && invoices[j].customerCode == customer && invoices[j].closingDate == closing
  }

  ghost predicate IsClosing(lines: seq<SalesLine>, terms: seq<BillingTerms>, holidays: seq<int>, c: Closing) {
    && Datable(lines, terms) && InOrder(c.invoices)
    && (forall j {:trigger c.invoices[j]} :: 0 <= j < |c.invoices| ==> IsInvoice(lines, terms, holidays, c.invoices[j]))
    && (forall i {:trigger lines[i]} :: 0 <= i < |lines| ==>
          HasInvoice(c.invoices, lines[i].customerCode, ClosingOf(lines[i], terms)))
    && c.totalTaxable == Total(c.invoices, TaxableOf)
    && c.totalTax == Total(c.invoices, TaxIn)
    && c.totalAmount == Total(c.invoices, AmountIn)
    && c.balanced
  }

  lemma {:induction false} GroupingProblemStays(lines: seq<SalesLine>, terms: seq<BillingTerms>, n: nat)
    requires n <= |lines| && FirstGroupingProblem(lines[..n], terms).Some?
    ensures FirstGroupingProblem(lines, terms) == FirstGroupingProblem(lines[..n], terms)
  {
    if n < |lines| {
      assert lines[..|lines| - 1][..n] == lines[..n];
      GroupingProblemStays(lines[..|lines| - 1], terms, n);
    } else {
      assert lines[..n] == lines;
    }
  }

  lemma SortedBundles(lines: seq<SalesLine>, terms: seq<BillingTerms>, bundles: seq<Bundle>)
    requires Datable(lines, terms) && Bundled(lines, terms, bundles)
    ensures Bundled(lines, terms, SortBy(bundles, BundleKey)) && Sorted(SortBy(bundles, BundleKey), BundleKey)
  {
    var sorted := SortBy(bundles, BundleKey);
    SortMembers(bundles, BundleKey);
    SortBySorted(bundles, BundleKey);
    DistinctPermutation(bundles, sorted);
    forall j | 0 <= j < |sorted|
      ensures IsBundle(lines, terms, sorted[j])
    {
      assert sorted[j] in bundles;
    }
    forall i, j | 0 <= i < j < |sorted|
      ensures !SameKey(sorted[i], sorted[j])
    {
      assert sorted[i] in bundles && sorted[j] in bundles;
    }
    forall i | 0 <= i < |lines|
      ensures HasBundle(sorted, lines[i].customerCode, ClosingOf(lines[i], terms))
    {
      assert HasBundle(bundles, lines[i].customerCode, ClosingOf(lines[i], terms));
      var m :| 0 <= m < |bundles| && bundles[m].customer == lines[i].customerCode
        && bundles[m].closing == ClosingOf(lines[i], terms);
      assert bundles[m] in sorted;
    }
  }

  /** Every line of a bundle is one of the lines, dated, of the bundle's customer. */
  lemma BundleMember(lines: seq<SalesLine>, terms: seq<BillingTerms>, b: Bundle, k: nat) returns (i: nat)
    requires Datable(lines, terms) && IsBundle(lines, terms, b) && k < |b.lines|
    ensures i < |lines| && lines[i] == b.lines[k] && Belongs(lines[i], b.customer, b.closing, terms)
  {
    FilterMembers(lines, BelongsTo(b.customer, b.closing, terms));
    assert b.lines[k] in b.lines;
    i :| 0 <= i < |lines| && lines[i] == b.lines[k];
  }

  /** A bundle that cannot be invoiced holds a line that cannot be. */
  lemma BundleProblem(lines: seq<SalesLine>, terms: seq<BillingTerms>, b: Bundle) returns (i: nat)
    requires Datable(lines, terms) && IsBundle(lines, terms, b)
    ensures i < |lines| && lines[i].customerCode == b.customer
    ensures TermsFor(terms, b.customer).Some?
    ensures FirstProblem(Taxable(b.lines)).Some? ==>
      FirstProblem(Taxable(b.lines)) == Some(UnsupportedRate)
      && InvoicingProblem(lines[i], terms) == Some(BadTax(UnsupportedRate))
    ensures FirstProblem(Taxable(b.lines)).None? ==> Allowed(lines[i].taxRate)
  {
    TaxableLines(b.lines);
    NoProblemAnywhere(Taxable(b.lines));
    if FirstProblem(Taxable(b.lines)).Some? {
      var k := WhichProblem(Taxable(b.lines));
      i := BundleMember(lines, terms, b, k);
      assert Taxable(b.lines)[k] == TaxLine(b.lines[k].amount, b.lines[k].taxRate);
    } else {
      i := BundleMember(lines, terms, b, 0);
      assert Taxable(b.lines)[0] == TaxLine(b.lines[0].amount, b.lines[0].taxRate);
    }
  }

  lemma {:induction false} WhichProblem(lines: seq<TaxLine>) returns (k: nat)
    requires FirstProblem(lines).Some?
    ensures k < |lines| && LineProblem(lines[k]) == FirstProblem(lines)
  {
    if FirstProblem(lines[..|lines| - 1]).Some? {
      k := WhichProblem(lines[..|lines| - 1]);
    } else {
      k := |lines| - 1;
    }
  }

  /** What stops a bundle: the first line with a bad rate, or else the customer's terms. */
  function BundleComplaint(b: Bundle, terms: seq<BillingTerms>): Option<ClosingError> {
    var t := TermsFor(terms, b.customer);
    if FirstProblem(Taxable(b.lines)).Some? then Some(BadTax(FirstProblem(Taxable(b.lines)).value))
    else if t.Some? && TermsProblem(t.value).Some? then Some(BadTerms(TermsProblem(t.value).value))
    else None
  }

  /** The complaint about the first of the bundles that has one. */
  ghost predicate FirstComplaint(bundles: seq<Bundle>, terms: seq<BillingTerms>, e: ClosingError) {
    exists j :: 0 <= j < |bundles| && BundleComplaint(bundles[j], terms) == Some(e)
      && forall m {:trigger bundles[m]} :: 0 <= m < j ==> BundleComplaint(bundles[m], terms).None?
  }

  /** The complaint about the earliest closing date, and within it the first customer, that has one. */
  ghost predicate EarliestComplaint(lines: seq<SalesLine>, terms: seq<BillingTerms>, e: ClosingError)
    requires Datable(lines, terms)
  {
    exists bundles :: Bundled(lines, terms, bundles) && Sorted(bundles, BundleKey) && FirstComplaint(bundles, terms, e)
  }

  method InvoiceFor(b: Bundle, ghost lines: seq<SalesLine>, terms: seq<BillingTerms>, holidays: seq<int>)
    returns (r: Result<Invoice, ClosingError>)
    requires Datable(lines, terms) && IsBundle(lines, terms, b)
    ensures r.Ok? ==>
      && IsInvoice(lines, terms, holidays, r.value)
      && r.value.customerCode == b.customer && r.value.closingDate == b.closing
    ensures r.Err? ==>
      exists i :: 0 <= i < |lines| && GroupingProblem(lines[i], terms).None?
        && InvoicingProblem(lines[i], terms) == Some(r.error)
    ensures BundleComplaint(b, terms) == if r.Err? then Some(r.error) else None
    ensures r.Ok? ==> forall k :: 0 <= k < |b.lines| ==>
      GroupingProblem(b.lines[k], terms).None? && InvoicingProblem(b.lines[k], terms).None?
  {
    ghost var bad := BundleProblem(lines, terms, b);
    var term := TermsFor(terms, b.customer).value;
    var tax := ComputeInvoiceTax(Taxable(b.lines));
    TaxableLines(b.lines);
    if tax.Err? {
      return Err(BadTax(tax.error));
    }
    var due := ComputePaymentDate(b.closing, term, holidays);
    if due.Err? {
      assert InvoicingProblem(lines[bad], terms) == Some(BadTerms(due.error));
      return Err(BadTerms(due.error));
    }
    SalesDraftBooks(Taxable(b.lines), b.customer, b.closing, tax.value);
    var draft := SalesDraftOf(b.customer, b.closing, tax.value);
    if draft.Err? {
      return Err(UnbalancedDraft(b.customer));
    }
    AllInvoiceable(lines, terms, b);
    IdsAt(b.lines);
    var invoice := Invoice(
      b.customer, b.lines[0].customerName, b.closing, due.value, Ids(b.lines), tax.value, draft.value);
    return Ok(invoice);
  }

  lemma AllInvoiceable(lines: seq<SalesLine>, terms: seq<BillingTerms>, b: Bundle)
    requires Datable(lines, terms) && IsBundle(lines, terms, b) && FirstProblem(Taxable(b.lines)).None?
    requires TermsFor(terms, b.customer).Some? && TermsProblem(TermsFor(terms, b.customer).value).None?
    ensures forall k :: 0 <= k < |b.lines| ==>
      GroupingProblem(b.lines[k], terms).None? && InvoicingProblem(b.lines[k], terms).None?
  {
    TaxableLines(b.lines);
    NoProblemAnywhere(Taxable(b.lines));
    forall k | 0 <= k < |b.lines|
      ensures GroupingProblem(b.lines[k], terms).None? && InvoicingProblem(b.lines[k], terms).None?
    {
      var i := BundleMember(lines, terms, b, k);
      assert Taxable(b.lines)[k] == TaxLine(b.lines[k].amount, b.lines[k].taxRate);
    }
  }

  lemma NothingBundled(terms: seq<BillingTerms>)
    ensures Bundled([], terms, [])
  {
  }

  method Group(lines: seq<SalesLine>, terms: seq<BillingTerms>) returns (r: Result<seq<Bundle>, ClosingError>)
    requires forall i :: 0 <= i < |lines| ==> Valid(lines[i].salesDate)
    ensures FirstGroupingProblem(lines, terms).Some? ==> r == Err(FirstGroupingProblem(lines, terms).value)
    ensures FirstGroupingProblem(lines, terms).None? ==>
      r.Ok? && Datable(lines, terms) && Bundled(lines, terms, r.value)
  {
    hide Bundled, IsClosingDate, ClampedDate;
    var bundles: seq<Bundle> := [];
    assert Bundled([], terms, bundles) by {
      NothingBundled(terms);
    }
    var i := 0;
    while i < |lines|
      invariant 0 <= i <= |lines|
      invariant FirstGroupingProblem(lines[..i], terms).None?
      invariant Datable(lines[..i], terms) && Bundled(lines[..i], terms, bundles)
    {
      var l := lines[i];
      assert lines[..i + 1] == lines[..i] + [l];
      assert lines[..i + 1][..i] == lines[..i];
      if l.amount < 0.0 {
        GroupingProblemStays(lines, terms, i + 1);
        return Err(NegativeLine);
      }
      var term := TermsFor(terms, l.customerCode);
      if term.None? {
        GroupingProblemStays(lines, terms, i + 1);
        return Err(MissingTerms(l.customerCode));
      }
      var closing := ComputeClosingDate(l.salesDate, term.value.closingDay);
      if closing.Err? {
        GroupingProblemStays(lines, terms, i + 1);
        return Err(BadTerms(closing.error));
      }
      ClosingDateIsLeast(l.salesDate, term.value.closingDay, closing.value);
      bundles := AddLine(bundles, l, closing.value, lines[..i], terms);
      i := i + 1;
    }
    assert lines[..i] == lines;
    return Ok(bundles);
  }

  /** The invoices of the first bundles, one each. */
  ghost predicate Invoiced(
    lines: seq<SalesLine>, terms: seq<BillingTerms>, holidays: seq<int>, bundles: seq<Bundle>, invoices: seq<Invoice>)
  {
    && |invoices| <= |bundles|
    && forall j {:trigger invoices[j]} :: 0 <= j < |invoices| ==>
         IsInvoice(lines, terms, holidays, invoices[j])
         && invoices[j].customerCode == bundles[j].customer && invoices[j].closingDate == bundles[j].closing
  }

  ghost predicate Invoiceable(terms: seq<BillingTerms>, b: Bundle) {
    forall k {:trigger b.lines[k]} :: 0 <= k < |b.lines| ==>
      GroupingProblem(b.lines[k], terms).None? && InvoicingProblem(b.lines[k], terms).None?
  }

  method InvoiceAll(
    lines: seq<SalesLine>, terms: seq<BillingTerms>, holidays: seq<int>, bundles: seq<Bundle>)
    returns (r: Result<seq<Invoice>, ClosingError>)
    requires Datable(lines, terms) && Bundled(lines, terms, bundles)
    ensures r.Ok? ==> Invoiced(lines, terms, holidays, bundles, r.value) && |r.value| == |bundles|
    ensures r.Ok? ==> forall j {:trigger bundles[j]} :: 0 <= j < |bundles| ==> Invoiceable(terms, bundles[j])
    ensures r.Err? ==> exists i :: 0 <= i < |lines| && InvoicingProblem(lines[i], terms) == Some(r.error)
    ensures r.Err? ==> FirstComplaint(bundles, terms, r.error)
  {
    hide IsInvoice, IsBundle, InvoicingProblem, GroupingProblem, BundleComplaint;
    var invoices: seq<Invoice> := [];
    var j := 0;
    while j < |bundles|
      invariant 0 <= j <= |bundles| && |invoices| == j
      invariant Invoiced(lines, terms, holidays, bundles, invoices)
      invariant forall m {:trigger bundles[m]} :: 0 <= m < j ==>
        Invoiceable(terms, bundles[m]) && BundleComplaint(bundles[m], terms).None?
    {
      var invoice := InvoiceFor(bundles[j], lines, terms, holidays);
      if invoice.Err? {
        return Err(invoice.error);
      }
      invoices := invoices + [invoice.value];
      j := j + 1;
    }
    return Ok(invoices);
  }

  lemma AllLinesInvoiceable(lines: seq<SalesLine>, terms: seq<BillingTerms>, bundles: seq<Bundle>)
    requires Datable(lines, terms) && Bundled(lines, terms, bundles)
    requires forall j {:trigger bundles[j]} :: 0 <= j < |bundles| ==> Invoiceable(terms, bundles[j])
    ensures forall i :: 0 <= i < |lines| ==> InvoicingProblem(lines[i], terms).None?
  {
    forall i | 0 <= i < |lines|
      ensures InvoicingProblem(lines[i], terms).None?
    {
      assert HasBundle(bundles, lines[i].customerCode, ClosingOf(lines[i], terms));
      var j :| 0 <= j < |bundles| && bundles[j].customer == lines[i].customerCode
        && bundles[j].closing == ClosingOf(lines[i], terms);
      var b := bundles[j];
      assert IsBundle(lines, terms, b);
      FilterMembers(lines, BelongsTo(b.customer, b.closing, terms));
      assert lines[i] in b.lines;
      var k :| 0 <= k < |b.lines| && b.lines[k] == lines[i];
      assert Invoiceable(terms, b);
    }
  }

  lemma InvoicesCover(
    lines: seq<SalesLine>, terms: seq<BillingTerms>, holidays: seq<int>, bundles: seq<Bundle>, invoices: seq<Invoice>)
    requires Datable(lines, terms) && Bundled(lines, terms, bundles) && Sorted(bundles, BundleKey)
    requires Invoiced(lines, terms, holidays, bundles, invoices) && |invoices| == |bundles|
    ensures InOrder(invoices)
    ensures forall i {:trigger lines[i]} :: 0 <= i < |lines| ==>
      HasInvoice(invoices, lines[i].customerCode, ClosingOf(lines[i], terms))
  {
    forall i, j | 0 <= i < j < |invoices|
      ensures Before(invoices[i], invoices[j])
    {
      assert IsBundle(lines, terms, bundles[i]) && IsBundle(lines, terms, bundles[j]);
      assert KeyLeq(BundleKey(bundles[i]), BundleKey(bundles[j])) && !SameKey(bundles[i], bundles[j]);
    }
    forall i | 0 <= i < |lines|
      ensures HasInvoice(invoices, lines[i].customerCode, ClosingOf(lines[i], terms))
    {
      assert HasBundle(bundles, lines[i].customerCode, ClosingOf(lines[i], terms));
      var j :| 0 <= j < |bundles| && bundles[j].customer == lines[i].customerCode
        && bundles[j].closing == ClosingOf(lines[i], terms);
      assert invoices[j].customerCode == lines[i].customerCode;
    }
  }

  /** What the closing asks of its input, line by line. */
  ghost predicate Closable(lines: seq<SalesLine>, terms: seq<BillingTerms>) {
    && UniqueCustomers(terms) && UniqueLineIds(lines)
    && forall i {:trigger lines[i]} :: 0 <= i < |lines| ==>
         GroupingProblem(lines[i], terms).None? && InvoicingProblem(lines[i], terms).None?
  }

  lemma {:induction false} NothingToComplain(lines: seq<SalesLine>, terms: seq<BillingTerms>)
    ensures FirstGroupingProblem(lines, terms).None?
       <==> forall i {:trigger lines[i]} :: 0 <= i < |lines| ==> GroupingProblem(lines[i], terms).None?
  {
    if lines != [] {
      var init := lines[..|lines| - 1];
      NothingToComplain(init, terms);
      assert forall i :: 0 <= i < |init| ==> init[i] == lines[i];
    }
  }

  lemma ClosableStepByStep(lines: seq<SalesLine>, terms: seq<BillingTerms>)
    requires forall i :: 0 <= i < |lines| ==> Valid(lines[i].salesDate)
    ensures Closable(lines, terms) <==>
      && UniqueCustomers(terms) && UniqueLineIds(lines) && FirstGroupingProblem(lines, terms).None?
      && Datable(lines, terms) && forall i :: 0 <= i < |lines| ==> InvoicingProblem(lines[i], terms).None?
  {
    hide GroupingProblem, InvoicingProblem, FirstGroupingProblem, UniqueCustomers, UniqueLineIds;
    NothingToComplain(lines, terms);
  }

  method Close(lines: seq<SalesLine>, terms: seq<BillingTerms>, holidays: seq<int>)
    returns (r: Result<Closing, ClosingError>)
    requires forall i :: 0 <= i < |lines| ==> Valid(lines[i].salesDate)
    ensures !UniqueCustomers(terms) ==> r == Err(DuplicateTerms)
    ensures UniqueCustomers(terms) && !UniqueLineIds(lines) ==> r == Err(DuplicateLineIds)
    ensures UniqueCustomers(terms) && UniqueLineIds(lines) && FirstGroupingProblem(lines, terms).Some? ==>
      r == Err(FirstGroupingProblem(lines, terms).value)
    ensures UniqueCustomers(terms) && UniqueLineIds(lines) && FirstGroupingProblem(lines, terms).None? ==>
      && Datable(lines, terms)
      && (r.Ok? <==> forall i :: 0 <= i < |lines| ==> InvoicingProblem(lines[i], terms).None?)
      && (r.Err? ==> exists i :: 0 <= i < |lines| && InvoicingProblem(lines[i], terms) == Some(r.error))
      && (r.Err? ==> EarliestComplaint(lines, terms, r.error))
    ensures r.Ok? <==> Closable(lines, terms)
    ensures r.Ok? ==> IsClosing(lines, terms, holidays, r.value)
  {
    hide Closable, IsInvoice, InvoicingProblem, FirstGroupingProblem, Bundled, FirstComplaint, UniqueLineIds;
    ClosableStepByStep(lines, terms);
    if !UniqueCustomers(terms) {
      return Err(DuplicateTerms);
    }
    if !UniqueLineIds(lines) {
      return Err(DuplicateLineIds);
    }
    var grouped := Group(lines, terms);
    if grouped.Err? {
      return Err(grouped.error);
    }
    SortedBundles(lines, terms, grouped.value);
    var bundles := SortBy(grouped.value, BundleKey);
    var invoiced := InvoiceAll(lines, terms, holidays, bundles);
    if invoiced.Err? {
      return Err(invoiced.error);
    }
    var invoices := invoiced.value;
    AllLinesInvoiceable(lines, terms, bundles);
    InvoicesCover(lines, terms, holidays, bundles, invoices);
    BalancedInvoices(lines, terms, holidays, invoices);
    var closing := Closing(
      invoices, Total(invoices, TaxableOf), Total(invoices, TaxIn), Total(invoices, AmountIn),
      forall inv :: inv in invoices ==> inv.draft.totalDebit == inv.draft.totalCredit);
    return Ok(closing);
  }

  lemma BalancedInvoices(lines: seq<SalesLine>, terms: seq<BillingTerms>, holidays: seq<int>, invoices: seq<Invoice>)
    requires forall j {:trigger invoices[j]} :: 0 <= j < |invoices| ==> IsInvoice(lines, terms, holidays, invoices[j])
    ensures forall inv :: inv in invoices ==> inv.draft.totalDebit == inv.draft.totalCredit
  {
    forall inv | inv in invoices
      ensures inv.draft.totalDebit == inv.draft.totalCredit
    {
      var j :| 0 <= j < |invoices| && invoices[j] == inv;
      assert IsInvoice(lines, terms, holidays, invoices[j]);
    }
  }

  // ----- What a closing guarantees -----

  /** Each line lies in exactly one invoice. */
  lemma EveryLineIsInvoicedOnce(
    lines: seq<SalesLine>, terms: seq<BillingTerms>, holidays: seq<int>, c: Closing, i: nat)
    requires IsClosing(lines, terms, holidays, c) && UniqueLineIds(lines) && i < |lines|
    ensures exists j :: 0 <= j < |c.invoices| && lines[i].lineId in c.invoices[j].lineIds
    ensures forall j, k :: 0 <= j < k < |c.invoices| ==>
      !(lines[i].lineId in c.invoices[j].lineIds && lines[i].lineId in c.invoices[k].lineIds)
  {
    assert HasInvoice(c.invoices, lines[i].customerCode, ClosingOf(lines[i], terms));
    var j :| 0 <= j < |c.invoices| && c.invoices[j].customerCode == lines[i].customerCode
      && c.invoices[j].closingDate == ClosingOf(lines[i], terms);
    IdMeansLine(lines, terms, holidays, c.invoices[j], i);
    forall j, k | 0 <= j < k < |c.invoices|
      ensures !(lines[i].lineId in c.invoices[j].lineIds && lines[i].lineId in c.invoices[k].lineIds)
    {
      assert Before(c.invoices[j], c.invoices[k]);
      IdMeansLine(lines, terms, holidays, c.invoices[j], i);
      IdMeansLine(lines, terms, holidays, c.invoices[k], i);
    }
  }

  /** An invoice lists the id of a line exactly when the line is of its customer and closes on its date. */
  lemma IdMeansLine(lines: seq<SalesLine>, terms: seq<BillingTerms>, holidays: seq<int>, inv: Invoice, i: nat)
    requires UniqueLineIds(lines) && i < |lines| && IsInvoice(lines, terms, holidays, inv)
    ensures lines[i].lineId in inv.lineIds <==> Belongs(lines[i], inv.customerCode, inv.closingDate, terms)
  {
    var own := LinesOf(lines, inv.customerCode, inv.closingDate, terms);
    FilterMembers(lines, BelongsTo(inv.customerCode, inv.closingDate, terms));
    IdsMembers(own, lines[i].lineId);
    if lines[i].lineId in inv.lineIds {
      var k :| 0 <= k < |own| && own[k].lineId == lines[i].lineId;
      assert own[k] in own;
      var m :| 0 <= m < |lines| && lines[m] == own[k];
      assert m == i;
    }
    if Belongs(lines[i], inv.customerCode, inv.closingDate, terms) {
      assert lines[i] in own;
    }
  }

  /** The due date of an invoice is the payment date of each of its lines. */
  lemma DueDateIsEveryLines(
    lines: seq<SalesLine>, terms: seq<BillingTerms>, holidays: seq<int>, inv: Invoice, l: SalesLine)
    requires IsInvoice(lines, terms, holidays, inv) && Belongs(l, inv.customerCode, inv.closingDate, terms)
    ensures IsPaymentDay(l.salesDate, TermsFor(terms, l.customerCode).value, holidays, inv.dueDate)
  {
    PaymentDayFromClosing(l.salesDate, TermsFor(terms, l.customerCode).value, holidays, inv.dueDate);
  }

  /** Sales amounts invoice by invoice. */
  function InvoiceByInvoice(invoices: seq<Invoice>, lines: seq<SalesLine>, terms: seq<BillingTerms>): Money {
    if invoices == [] then 0.0
    else
      var last := invoices[|invoices| - 1];
      InvoiceByInvoice(invoices[..|invoices| - 1], lines, terms)
      + Total(LinesOf(lines, last.customerCode, last.closingDate, terms), LineAmount)
  }

  lemma {:induction false} InvoiceByInvoiceSnoc(
    invoices: seq<Invoice>, lines: seq<SalesLine>, l: SalesLine, terms: seq<BillingTerms>)
    requires InOrder(invoices) && Valid(l.salesDate) && GroupingProblem(l, terms).None?
    ensures InvoiceByInvoice(invoices, lines + [l], terms) == InvoiceByInvoice(invoices, lines, terms)
      + if HasInvoice(invoices, l.customerCode, ClosingOf(l, terms)) then l.amount else 0.0
  {
    if invoices != [] {
      var init, last := invoices[..|invoices| - 1], invoices[|invoices| - 1];
      assert invoices == init + [last];
      LastIsNew(invoices);
      InvoiceByInvoiceSnoc(init, lines, l, terms);
      HasInvoiceSnoc(init, last, l.customerCode, ClosingOf(l, terms));
      OwnAmountsSnoc(lines, l, last, terms);
    }
  }

  lemma LastIsNew(invoices: seq<Invoice>)
    requires InOrder(invoices) && invoices != []
    ensures var init, last := invoices[..|invoices| - 1], invoices[|invoices| - 1];
      InOrder(init) && !HasInvoice(init, last.customerCode, last.closingDate)
  {
    var init, last := invoices[..|invoices| - 1], invoices[|invoices| - 1];
    forall i | 0 <= i < |init|
      ensures Before(init[i], last)
    {
      assert Before(invoices[i], invoices[|invoices| - 1]);
    }
  }

  lemma OwnAmountsSnoc(lines: seq<SalesLine>, l: SalesLine, inv: Invoice, terms: seq<BillingTerms>)
    ensures
      var before := LinesOf(lines, inv.customerCode, inv.closingDate, terms);
      var after := LinesOf(lines + [l], inv.customerCode, inv.closingDate, terms);
      Total(after, LineAmount) == Total(before, LineAmount)
        + if Belongs(l, inv.customerCode, inv.closingDate, terms) then l.amount else 0.0
  {
    LinesOfSnoc(lines, l, inv.customerCode, inv.closingDate, terms);
    var before := LinesOf(lines, inv.customerCode, inv.closingDate, terms);
    TotalSnoc(before, l, LineAmount);
    assert before + [] == before;
  }

  lemma HasInvoiceSnoc(init: seq<Invoice>, last: Invoice, customer: string, closing: Date)
    ensures HasInvoice(init + [last], customer, closing)
       <==> HasInvoice(init, customer, closing) || (last.customerCode == customer && last.closingDate == closing)
  {
    assert (init + [last])[|init|] == last;
    if HasInvoice(init, customer, closing) {
      var j :| 0 <= j < |init| && init[j].customerCode == customer && init[j].closingDate == closing;
      assert (init + [last])[j] == init[j];
    }
  }

  lemma {:induction false} InvoicesSplitTheLines(
    invoices: seq<Invoice>, lines: seq<SalesLine>, terms: seq<BillingTerms>)
    requires Datable(lines, terms) && InOrder(invoices)
    requires forall i {:trigger lines[i]} :: 0 <= i < |lines| ==>
      HasInvoice(invoices, lines[i].customerCode, ClosingOf(lines[i], terms))
    ensures InvoiceByInvoice(invoices, lines, terms) == Total(lines, LineAmount)
  {
    if lines == [] {
      NoLinesNothing(invoices, terms);
    } else {
      var init, last := lines[..|lines| - 1], lines[|lines| - 1];
      assert lines == init + [last];
      forall i | 0 <= i < |init|
        ensures HasInvoice(invoices, init[i].customerCode, ClosingOf(init[i], terms))
      {
        assert init[i] == lines[i];
      }
      InvoicesSplitTheLines(invoices, init, terms);
      InvoiceByInvoiceSnoc(invoices, init, last, terms);
    }
  }

  lemma {:induction false} NoLinesNothing(invoices: seq<Invoice>, terms: seq<BillingTerms>)
    ensures InvoiceByInvoice(invoices, [], terms) == 0.0
  {
    if invoices != [] {
      NoLinesNothing(invoices[..|invoices| - 1], terms);
    }
  }

  lemma {:induction false} InvoiceSums(
    invoices: seq<Invoice>, lines: seq<SalesLine>, terms: seq<BillingTerms>, holidays: seq<int>)
    requires forall j {:trigger invoices[j]} :: 0 <= j < |invoices| ==> IsInvoice(lines, terms, holidays, invoices[j])
    ensures Total(invoices, TaxableOf) == InvoiceByInvoice(invoices, lines, terms)
    ensures Total(invoices, AmountIn) == Total(invoices, TaxableOf) + Total(invoices, TaxIn)
  {
    if invoices != [] {
      var init, last := invoices[..|invoices| - 1], invoices[|invoices| - 1];
      forall j | 0 <= j < |init|
        ensures IsInvoice(lines, terms, holidays, init[j])
      {
        assert init[j] == invoices[j];
      }
      InvoiceSums(init, lines, terms, holidays);
      assert IsInvoice(lines, terms, holidays, last);
      var own := LinesOf(lines, last.customerCode, last.closingDate, terms);
      InvoiceTotals(Taxable(own), last.tax);
      TaxableTotal(own);
    }
  }

  /** The closing's totals are those of the sales lines, and its invoices ask for exactly that plus tax. */
  lemma ClosingConservesSales(lines: seq<SalesLine>, terms: seq<BillingTerms>, holidays: seq<int>, c: Closing)
    requires IsClosing(lines, terms, holidays, c)
    ensures c.totalTaxable == Total(lines, LineAmount)
    ensures c.totalAmount == c.totalTaxable + c.totalTax
  {
    InvoicesSplitTheLines(c.invoices, lines, terms);
    InvoiceSums(c.invoices, lines, terms, holidays);
  }
}
