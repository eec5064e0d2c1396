/** Journal drafts of bad debts: the allowance is used first, the contained tax is deducted, the rest is a loss. */
module BadDebt {
  import opened Wrappers
  import opened Sums
  import opened Sorting
  import opened TaxCalculator
  import opened Journal

  datatype Treatment = Loss | IndividualReserve | GeneralReserve | Manual

  datatype Item = Item(receivableId: string, treatment: Treatment, lossAmount: Money)

  datatype TaxTreatment = Exclusive | Inclusive | OtherTreatment(name: string)

  datatype AllowanceMethod = Difference | Reversal | OtherMethod(name: string)

  datatype BadDebtError =
    | NegativeAllowance | InvalidTreatment | InvalidMethod | UnknownReceivable(id: string)
    | NegativeRate | UnsupportedRate | UnbalancedDraft(reference: string)

  datatype BadDebtResult = BadDebtResult(
    drafts: seq<Draft>, totalWriteOff: Money, totalAllowanceUsed: Money, totalLossExpense: Money,
    totalTaxDeduction: Money, opening: Money, afterWriteOff: Money, target: Money, provision: Money,
    reversal: Money, closing: Money, balanced: bool)

  const DEFAULT_RATE := 0.10

  function Min(a: real, b: real): real { if a <= b then a else b }
  function Max(a: real, b: real): real { if a >= b then a else b }

  // ----- One receivable -----

  predicate Counted(i: Item) {
    i.treatment == Loss && i.lossAmount > 0.0
  }

  function RateOf(i: Item, rates: map<string, real>): real {
    if i.receivableId in rates then rates[i.receivableId] else DEFAULT_RATE
  }

  function ItemProblem(i: Item, rates: map<string, real>): Option<BadDebtError> {
    if !Counted(i) then None
    else if RateOf(i, rates) < 0.0 then Some(NegativeRate)
    else if RateOf(i, rates) > 0.0 && RateOf(i, rates) != 0.10 && RateOf(i, rates) != 0.08 then Some(UnsupportedRate)
    else None
  }

  function FirstItemProblem(items: seq<Item>, rates: map<string, real>): Option<BadDebtError> {
    if items == [] then None
    else
      var before := FirstItemProblem(items[..|items| - 1], rates);
      if before.Some? then before else ItemProblem(items[|items| - 1], rates)
  }

  /** The tax contained in the written-off amount, nothing for a receivable outside the tax. */
  function Deductible(i: Item, rates: map<string, real>): Money {
    if RateOf(i, rates) > 0.0 then ContainedTax(i.lossAmount, RateOf(i, rates)) as real else 0.0
  }

  /** A counted item with its taxes worked out: what its draft credits, and how the debits are shared. */
  datatype Entry = Entry(id: string, loss: Money, deductible: Money, taxLine: Money)

  function NetOf(e: Entry): Money { e.loss - e.taxLine }
  function LossOf(e: Entry): Money { e.loss }
  function DeductibleOf(e: Entry): Money { e.deductible }
  function TaxLineOf(e: Entry): Money { e.taxLine }

  /** The tax has a line of its own only when books are kept without tax; it is deductible either way. */
  function EntryOf(i: Item, rates: map<string, real>, treatment: TaxTreatment): Entry {
    var tax := Deductible(i, rates);
    Entry(i.receivableId, i.lossAmount, tax, if treatment == Exclusive then tax else 0.0)
  }

  /** A receivable without a rate of its own is taken at ten percent; the deduction is the whole yen of the tax
      contained in the loss, and takes a line only when books are kept without tax. */
  lemma EntryMeans(i: Item, rates: map<string, real>, treatment: TaxTreatment, rate: real)
    requires Counted(i) && ItemProblem(i, rates).None?
    requires rate == if i.receivableId in rates then rates[i.receivableId] else 0.10
    ensures rate == 0.0 || rate == 0.08 || rate == 0.10
    ensures var e := EntryOf(i, rates, treatment);
      && e.id == i.receivableId && e.loss == i.lossAmount > 0.0
      && e.deductible <= i.lossAmount * rate / (1.0 + rate) < e.deductible + 1.0
      && e.deductible.Floor as real == e.deductible
      && e.taxLine == if treatment == Exclusive then e.deductible else 0.0
  {
    if rate > 0.0 {
      assert i.lossAmount * rate / (1.0 + rate) >= 0.0 by {
        assert rate == 0.10 || rate == 0.08;
      }
    }
  }

  /** The rate an item is taken at. */
  ghost predicate HasRate(i: Item, rates: map<string, real>, rate: real) {
    rate == if i.receivableId in rates then rates[i.receivableId] else 0.10
  }

  /** Only a loss that is booked needs a rate, and it must be one of three. */
  lemma ItemRefusedExactlyWhen(i: Item, rates: map<string, real>, rate: real)
    requires HasRate(i, rates, rate)
    ensures
      var e := ItemProblem(i, rates);
      && (e.None? <==> i.treatment != Loss || i.lossAmount <= 0.0 || rate in {0.0, 0.08, 0.10})
      && (e == Some(NegativeRate) <==> i.treatment == Loss && i.lossAmount > 0.0 && rate < 0.0)
      && (e == Some(UnsupportedRate) <==>
            i.treatment == Loss && i.lossAmount > 0.0 && rate > 0.0 && rate !in {0.08, 0.10})
  {
  }

  /** The complaint about the first item that has one. */
  lemma {:induction false} FirstItemProblemMeans(items: seq<Item>, rates: map<string, real>)
    ensures FirstItemProblem(items, rates).None? <==>
      forall n :: 0 <= n < |items| ==> ItemProblem(items[n], rates).None?
    ensures FirstItemProblem(items, rates).Some? ==>
      exists n :: 0 <= n < |items| && ItemProblem(items[n], rates) == FirstItemProblem(items, rates)
        && forall m :: 0 <= m < n ==> ItemProblem(items[m], rates).None?
  {
    if items != [] {
      hide ItemProblem;
      var init := items[..|items| - 1];
      FirstItemProblemMeans(init, rates);
      if FirstItemProblem(init, rates).Some? {
        var n :| 0 <= n < |init| && ItemProblem(init[n], rates) == FirstItemProblem(init, rates)
          && forall m :: 0 <= m < n ==> ItemProblem(init[m], rates).None?;
        assert ItemProblem(items[n], rates) == FirstItemProblem(items, rates);
        assert forall m :: 0 <= m < n ==> items[m] == init[m];
      } else {
        assert forall m :: 0 <= m < |init| ==> items[m] == init[m];
      }
    }
  }

  function Entries(items: seq<Item>, rates: map<string, real>, treatment: TaxTreatment): seq<Entry> {
    if items == [] then []
    else
      var before, last := Entries(items[..|items| - 1], rates, treatment), items[|items| - 1];
      if Counted(last) then before + [EntryOf(last, rates, treatment)] else before
  }

  ghost predicate Booked(i: Item) { i.treatment == Loss && i.lossAmount > 0.0 }

  /** The entries are those of the losses that are booked and not nothing; one more item never changes earlier ones. */
  lemma {:induction false} EntriesAre(items: seq<Item>, rates: map<string, real>, treatment: TaxTreatment)
    ensures forall i :: i in items && Booked(i) ==> EntryOf(i, rates, treatment) in Entries(items, rates, treatment)
    ensures forall e :: e in Entries(items, rates, treatment) ==>
      exists i :: i in items && Booked(i) && e == EntryOf(i, rates, treatment)
    ensures forall n :: 0 <= n < |items| ==>
      Entries(items[..n], rates, treatment) <= Entries(items, rates, treatment)
  {
    if items != [] {
      hide EntryOf;
      var init, last := items[..|items| - 1], items[|items| - 1];
      assert items == init + [last];
      EntriesAre(init, rates, treatment);
      assert Counted(last) <==> Booked(last);
      forall n | 0 <= n < |items|
        ensures Entries(items[..n], rates, treatment) <= Entries(items, rates, treatment)
      {
        assert n < |init| ==> init[..n] == items[..n];
      }
    }
  }

  ghost predicate Proper(e: Entry) {
    0.0 <= e.taxLine < e.loss && 0.0 <= e.deductible
  }

  ghost predicate AllProper(entries: seq<Entry>) {
    forall n :: 0 <= n < |entries| ==> Proper(entries[n])
  }

  /** The contained tax is less than the amount, so something is left for the allowance or the expense. */
  lemma EntryIsProper(i: Item, rates: map<string, real>, treatment: TaxTreatment)
    requires Counted(i) && ItemProblem(i, rates).None?
    ensures Proper(EntryOf(i, rates, treatment))
  {
    var rate := RateOf(i, rates);
    if rate > 0.0 {
      var contained := i.lossAmount * rate / (1.0 + rate);
      assert 0.0 <= contained < i.lossAmount by {
        assert rate == 0.10 || rate == 0.08;
      }
    }
  }

  lemma {:induction false} EntriesAreProper(items: seq<Item>, rates: map<string, real>, treatment: TaxTreatment)
    requires FirstItemProblem(items, rates).None?
    ensures AllProper(Entries(items, rates, treatment))
  {
    if items != [] {
      EntriesAreProper(items[..|items| - 1], rates, treatment);
      if Counted(items[|items| - 1]) {
        EntryIsProper(items[|items| - 1], rates, treatment);
      }
    }
  }

  // ----- Plain greedy use of the allowance -----

  /** The allowance left after the given entries. */
  function Left(entries: seq<Entry>, opening: Money): Money {
    Max(0.0, opening - Total(entries, NetOf))
  }

  function WriteOffLines(e: Entry, used: Money): seq<Line> {
    [Line(BadDebtAllowance, used, 0.0, e.id), Line(BadDebtLoss, NetOf(e) - used, 0.0, e.id)]
    + [Line(ConsumptionTaxReceived, e.taxLine, 0.0, ""), Line(AccountsReceivable, 0.0, e.loss, e.id)]
  }

  /** Each entry takes what is left of the allowance, up to its own net loss. */
  function WriteOff(e: Entry, left: Money, date: int): Result<Draft, Unbalanced> {
    Build(WriteOffDraft, e.id, date, WriteOffLines(e, Min(left, NetOf(e))))
  }

  /** What write-off drafts debit under a role, given their three debit amounts. */
  function WriteOffDebit(role: Role, used: Money, loss: Money, tax: Money): Money {
    if role == BadDebtAllowance then used
    else if role == BadDebtLoss then loss
    else if role == ConsumptionTaxReceived then tax else 0.0
  }

  /** The debits that a net loss and its tax line cause when `left` is left of the allowance. */
  function GreedyDebit(role: Role, left: Money, net: Money, tax: Money): Money {
    WriteOffDebit(role, Min(left, net), Max(0.0, net - left), tax)
  }

  function WriteOffCredit(role: Role, receivable: Money): Money {
    if role == AccountsReceivable then receivable else 0.0
  }

  lemma WriteOffLineSums(e: Entry, used: Money, role: Role)
    requires Proper(e) && 0.0 <= used <= NetOf(e)
    ensures
      var lines := WriteOffLines(e, used);
      && NoNegativeLine(lines)
      && Total(lines, DebitOf) == Total(lines, CreditOf) == e.loss
      && RoleDebit(lines, role) == WriteOffDebit(role, used, NetOf(e) - used, e.taxLine)
      && RoleCredit(lines, role) == WriteOffCredit(role, e.loss)
  {
    var allowance, loss := Line(BadDebtAllowance, used, 0.0, e.id), Line(BadDebtLoss, NetOf(e) - used, 0.0, e.id);
    var tax := Line(ConsumptionTaxReceived, e.taxLine, 0.0, "");
    var receivable := Line(AccountsReceivable, 0.0, e.loss, e.id);
    SumsPair(allowance, loss, role);
    SumsPair(tax, receivable, role);
    SumsConcat([allowance, loss], [tax, receivable], role);
  }

  /** The draft of an entry always balances. */
  lemma WriteOffBooks(e: Entry, left: Money, date: int, role: Role)
    requires Proper(e) && left >= 0.0
    ensures WriteOff(e, left, date).Ok?
    ensures
      var d := WriteOff(e, left, date).value;
      && d.totalDebit == d.totalCredit
      && RoleDebit(d.lines, role) == GreedyDebit(role, left, NetOf(e), e.taxLine)
      && RoleCredit(d.lines, role) == WriteOffCredit(role, e.loss)
  {
    var used := Min(left, NetOf(e));
    WriteOffLineSums(e, used, role);
    BuildKeepsSums(WriteOffDraft, e.id, date, WriteOffLines(e, used), role);
  }

  /** The write-off drafts of the entries, in their order. */
  function WriteOffs(entries: seq<Entry>, opening: Money, date: int): seq<Draft> {
    if entries == [] then []
    else
      var init, last := entries[..|entries| - 1], entries[|entries| - 1];
      var before, draft := WriteOffs(init, opening, date), WriteOff(last, Left(init, opening), date);
      if draft.Ok? then before + [draft.value] else before
  }

  lemma OneMoreWriteOff(entries: seq<Entry>, opening: Money, date: int)
    requires entries != [] && Proper(entries[|entries| - 1])
    ensures
      var init, last := entries[..|entries| - 1], entries[|entries| - 1];
      && WriteOff(last, Left(init, opening), date).Ok?
      && WriteOffs(entries, opening, date)
           == WriteOffs(init, opening, date) + [WriteOff(last, Left(init, opening), date).value]
  {
    hide RoleDebit, RoleCredit, WriteOff, Left, GreedyDebit, WriteOffCredit;
    var init, last := entries[..|entries| - 1], entries[|entries| - 1];
    LeftIsNotNegative(init, opening);
    WriteOffBooks(last, Left(init, opening), date, BadDebtAllowance);
  }

  /** Each entry is drafted with what the ones before it left. */
  lemma {:induction false} WriteOffsAre(entries: seq<Entry>, opening: Money, date: int, n: nat)
    requires AllProper(entries) && n < |entries|
    ensures |WriteOffs(entries, opening, date)| == |entries|
    ensures WriteOff(entries[n], Left(entries[..n], opening), date) == Ok(WriteOffs(entries, opening, date)[n])
    decreases |entries|
  {
    hide WriteOff, Left, Proper, WriteOffs;
    var init := entries[..|entries| - 1];
    OneMoreWriteOff(entries, opening, date);
    if n < |init| {
      WriteOffsAre(init, opening, date, n);
      assert init[..n] == entries[..n];
    } else if init != [] {
      WriteOffsAre(init, opening, date, 0);
    } else {
      NoWriteOffs(opening, date);
    }
  }

  lemma NoWriteOffs(opening: Money, date: int)
    ensures WriteOffs([], opening, date) == []
  {
  }

  lemma LeftIsNotNegative(entries: seq<Entry>, opening: Money)
    ensures Left(entries, opening) >= 0.0
  {
  }

  /** The draft of a receivable names it, and has these lines, those without an amount left out. */
  lemma WriteOffDraftIs(e: Entry, left: Money, date: int)
    requires Proper(e) && left >= 0.0
    ensures WriteOff(e, left, date).Ok?
    ensures
      var net := e.loss - e.taxLine;
      var used := if left <= net then left else net;
      var d := WriteOff(e, left, date).value;
      && d.kind == WriteOffDraft && d.reference == e.id && d.date == date
      && d.totalDebit == d.totalCredit == e.loss
      && forall l :: l in d.lines <==>
           && (l.debit > 0.0 || l.credit > 0.0)
           && (|| l == Line(BadDebtAllowance, used, 0.0, e.id)
               || l == Line(BadDebtLoss, net - used, 0.0, e.id)
               || l == Line(ConsumptionTaxReceived, e.taxLine, 0.0, "")
               || l == Line(AccountsReceivable, 0.0, e.loss, e.id))
  {
    hide RoleDebit, RoleCredit, Total, Kept;
    var used := Min(left, NetOf(e));
    WriteOffLineSums(e, used, BadDebtAllowance);
    BuildKeepsSums(WriteOffDraft, e.id, date, WriteOffLines(e, used), BadDebtAllowance);
  }

  // ----- Year end -----

  function YearEndLines(kind: DraftKind, amount: Money): seq<Line> {
    if kind == ReversalDraft then
      [Line(BadDebtAllowance, amount, 0.0, ""), Line(AllowanceReversal, 0.0, amount, "")]
    else
      [Line(AllowanceProvision, amount, 0.0, ""), Line(BadDebtAllowance, 0.0, amount, "")]
  }

  function YearEnd(kind: DraftKind, amount: Money, date: int): Result<Draft, Unbalanced> {
    Build(kind, "allowance", date, YearEndLines(kind, amount))
  }

  lemma YearEndBooks(kind: DraftKind, amount: Money, date: int, role: Role)
    requires amount > 0.0 && (kind == ReversalDraft || kind == ProvisionDraft)
    ensures YearEnd(kind, amount, date).Ok?
    ensures
      var d := YearEnd(kind, amount, date).value;
      && d.totalDebit == d.totalCredit
      && RoleDebit(d.lines, role) ==
           (if role == (if kind == ReversalDraft then BadDebtAllowance else AllowanceProvision) then amount else 0.0)
      && RoleCredit(d.lines, role) ==
           if role == (if kind == ReversalDraft then AllowanceReversal else BadDebtAllowance) then amount else 0.0
  {
    var lines := YearEndLines(kind, amount);
    SumsPair(lines[0], lines[1], role);
    assert NoNegativeLine(lines);
    BuildKeepsSums(kind, "allowance", date, lines, role);
  }

  function YearEndDrafts(reversal: Money, provision: Money, date: int): seq<Draft> {
    var r, p := YearEnd(ReversalDraft, reversal, date), YearEnd(ProvisionDraft, provision, date);
    (if reversal > 0.0 && r.Ok? then [r.value] else []) + (if provision > 0.0 && p.Ok? then [p.value] else [])
  }

  /** One draft for each of the two amounts that is positive, the reversal first, and their lines. */
  lemma YearEndDraftsAre(reversal: Money, provision: Money, date: int)
    ensures
      var drafts := YearEndDrafts(reversal, provision, date);
      && |drafts| == (if reversal > 0.0 then 1 else 0) + (if provision > 0.0 then 1 else 0)
      && (reversal > 0.0 ==> IsYearEnd(drafts[0], ReversalDraft, date, BadDebtAllowance, AllowanceReversal, reversal))
      && (provision > 0.0 ==>
            IsYearEnd(drafts[|drafts| - 1], ProvisionDraft, date, AllowanceProvision, BadDebtAllowance, provision))
  {
    hide RoleDebit, RoleCredit, Total, Kept;
    if reversal > 0.0 {
      YearEndIs(ReversalDraft, reversal, date);
    }
    if provision > 0.0 {
      YearEndIs(ProvisionDraft, provision, date);
    }
  }

  ghost predicate IsYearEnd(d: Draft, kind: DraftKind, date: int, debit: Role, credit: Role, amount: Money) {
    && d.kind == kind && d.reference == "allowance" && d.date == date && d.totalDebit == d.totalCredit
    && forall l :: l in d.lines <==> l == Line(debit, amount, 0.0, "") || l == Line(credit, 0.0, amount, "")
  }

  lemma YearEndIs(kind: DraftKind, amount: Money, date: int)
    requires amount > 0.0 && (kind == ReversalDraft || kind == ProvisionDraft)
    ensures YearEnd(kind, amount, date).Ok?
    ensures
      if kind == ReversalDraft then
        IsYearEnd(YearEnd(kind, amount, date).value, kind, date, BadDebtAllowance, AllowanceReversal, amount)
      else
        IsYearEnd(YearEnd(kind, amount, date).value, kind, date, AllowanceProvision, BadDebtAllowance, amount)
  {
    hide RoleDebit, RoleCredit, Total, Kept;
    var lines := YearEndLines(kind, amount);
    YearEndBooks(kind, amount, date, BadDebtAllowance);
    assert NoNegativeLine(lines);
    BuildKeepsSums(kind, "allowance", date, lines, BadDebtAllowance);
  }

  // ----- Generating the drafts -----

  ghost predicate IsLeast(id: string, ids: set<string>) {
    id in ids && forall other :: other in ids ==> TextLeq(id, other)
  }

  method LeastOf(ids: set<string>) returns (least: string)
    requires ids != {}
    ensures IsLeast(least, ids)
  {
    least :| least in ids;
    TextTotalOrder(least, least);
    var rest := ids - {least};
    while rest != {}
      invariant rest <= ids && least in ids && least !in rest
      invariant forall other :: other in ids && other !in rest ==> TextLeq(least, other)
    {
      var id :| id in rest;
      TextTotalOrder(id, least);
      TextTotalOrder(id, id);
      if TextLeq(id, least) {
        forall other | other in ids && other !in rest
          ensures TextLeq(id, other)
        {
          TextTransitive(id, least, other);
        }
        least := id;
      }
      rest := rest - {id};
    }
  }

  ghost function Unknown(items: seq<Item>, rates: map<string, real>): set<string> {
    set id | id in rates && forall i :: 0 <= i < |items| ==> items[i].receivableId != id
  }

  /** Which of the arguments is refused, before any item is looked at. */
  ghost predicate Refused(
    items: seq<Item>, opening: Money, rates: map<string, real>, treatment: TaxTreatment, how: AllowanceMethod,
    error: BadDebtError)
  {
    if opening < 0.0 then error == NegativeAllowance
    else if treatment.OtherTreatment? then error == InvalidTreatment
    else if how.OtherMethod? then error == InvalidMethod
    else error.UnknownReceivable? && IsLeast(error.id, Unknown(items, rates))
  }

  predicate Acceptable(opening: Money, treatment: TaxTreatment, how: AllowanceMethod) {
    opening >= 0.0 && !treatment.OtherTreatment? && !how.OtherMethod?
  }

  method KnownIds(items: seq<Item>) returns (ids: set<string>)
    ensures forall id :: id in ids <==> exists i :: 0 <= i < |items| && items[i].receivableId == id
  {
    ids := {};
    for n := 0 to |items|
      invariant forall id :: id in ids <==> exists i :: 0 <= i < n && items[i].receivableId == id
    {
      ids := ids + {items[n].receivableId};
    }
  }

  datatype WrittenOff = WrittenOff(
    drafts: seq<Draft>, left: Money, writeOff: Money, used: Money, expense: Money, tax: Money)

  /** What the loop knows after the given entries. */
  ghost predicate Progress(entries: seq<Entry>, opening: Money, date: int, w: WrittenOff) {
    && AllProper(entries)
    && w.drafts == WriteOffs(entries, opening, date) && AllBalanced(w.drafts)
    && w.left == Left(entries, opening)
    && w.used == opening - w.left
    && w.writeOff == Total(entries, LossOf)
    && w.expense == Total(entries, NetOf) - w.used
    && w.tax == Total(entries, DeductibleOf)
  }

  lemma ProgressStarts(opening: Money, date: int, w: WrittenOff)
    requires opening >= 0.0 && w == WrittenOff([], opening, 0.0, 0.0, 0.0, 0.0)
    ensures Progress([], opening, date, w)
  {
  }

  lemma LeftInProgress(entries: seq<Entry>, opening: Money, date: int, w: WrittenOff)
    requires Progress(entries, opening, date, w)
    ensures w.left >= 0.0
  {
  }

  lemma OneMoreEntry(
    e: Entry, entries: seq<Entry>, opening: Money, date: int, w: WrittenOff, d: Draft, used: Money)
    requires Progress(entries, opening, date, w) && Proper(e)
    requires used == Min(w.left, NetOf(e)) && WriteOff(e, w.left, date) == Ok(d) && d.totalDebit == d.totalCredit
    ensures Progress(entries + [e], opening, date, WrittenOff(
      w.drafts + [d], w.left - used, w.writeOff + e.loss, w.used + used, w.expense + NetOf(e) - used,
      w.tax + e.deductible))
  {
    hide WriteOff;
    assert (entries + [e])[..|entries|] == entries;
    TotalSnoc(entries, e, NetOf);
    TotalSnoc(entries, e, LossOf);
    TotalSnoc(entries, e, DeductibleOf);
  }

  /** One turn of the loop: the allowance is offered the whole loss first, and gives back what the tax line needs. */
  method WriteOffOne(e: Entry, ghost entries: seq<Entry>, opening: Money, date: int, w: WrittenOff)
    returns (r: Result<WrittenOff, BadDebtError>)
    requires Progress(entries, opening, date, w) && Proper(e) && opening >= 0.0
    ensures r.Ok? && Progress(entries + [e], opening, date, r.value)
  {
    hide RoleDebit, RoleCredit, GreedyDebit, WriteOffCredit, Progress, Kept;
    LeftInProgress(entries, opening, date, w);
    var used := Min(w.left, e.loss);
    var expense := e.loss - used - e.taxLine;
    if expense < 0.0 {
      used := used + expense;
      expense := 0.0;
    }
    var lines :=
      [Line(BadDebtAllowance, used, 0.0, e.id), Line(BadDebtLoss, expense, 0.0, e.id)]
      + [Line(ConsumptionTaxReceived, e.taxLine, 0.0, ""), Line(AccountsReceivable, 0.0, e.loss, e.id)];
    var draft := Build(WriteOffDraft, e.id, date, lines);
    WriteOffBooks(e, w.left, date, BadDebtAllowance);
    assert used == Min(w.left, NetOf(e)) && draft == WriteOff(e, w.left, date);
    if draft.Err? {
      return Err(UnbalancedDraft(e.id));
    }
    OneMoreEntry(e, entries, opening, date, w, draft.value, used);
    return Ok(WrittenOff(
      w.drafts + [draft.value], w.left - used, w.writeOff + e.loss, w.used + used, w.expense + expense,
      w.tax + e.deductible));
  }

  method WriteOffAll(
    items: seq<Item>, date: int, opening: Money, rates: map<string, real>, treatment: TaxTreatment)
    returns (r: Result<WrittenOff, BadDebtError>)
    requires opening >= 0.0
    ensures FirstItemProblem(items, rates).Some? ==> r == Err(FirstItemProblem(items, rates).value)
    ensures FirstItemProblem(items, rates).None? ==>
      r.Ok? && Progress(Entries(items, rates, treatment), opening, date, r.value)
  {
    hide Progress;
    var w := WrittenOff([], opening, 0.0, 0.0, 0.0, 0.0);
    ProgressStarts(opening, date, w);
    var n := 0;
    while n < |items|
      invariant 0 <= n <= |items|
      invariant FirstItemProblem(items[..n], rates).None?
      invariant Progress(Entries(items[..n], rates, treatment), opening, date, w)
    {
      var item := items[n];
      assert items[..n + 1][..n] == items[..n];
      if Counted(item) {
        if ItemProblem(item, rates).Some? {
          ItemProblemStays(items, rates, n + 1);
          return Err(ItemProblem(item, rates).value);
        }
        var deductible := 0.0;
        if RateOf(item, rates) > 0.0 {
          deductible := CalculateTax(item.lossAmount, RateOf(item, rates), true).1 as real;
        }
        var taxLine := if treatment == Exclusive then deductible else 0.0;
        EntryIsProper(item, rates, treatment);
        var next := WriteOffOne(
          Entry(item.receivableId, item.lossAmount, deductible, taxLine), Entries(items[..n], rates, treatment),
          opening, date, w);
        if next.Err? {
          return Err(UnbalancedDraft(item.receivableId));
        }
        w := next.value;
      }
      n := n + 1;
    }
    assert items[..n] == items;
    return Ok(w);
  }

  /** The write-off part in closed form, and what the year end adds to it. */
  ghost predicate IsResult(
    entries: seq<Entry>, opening: Money, how: AllowanceMethod, target: Money, date: int, r: BadDebtResult)
  {
    && WritesOff(entries, opening, r)
    && ClosesAt(how, target, r)
    && r.drafts == WriteOffs(entries, opening, date) + YearEndDrafts(r.reversal, r.provision, date)
    && AllBalanced(r.drafts) && r.balanced
  }

  ghost predicate WritesOff(entries: seq<Entry>, opening: Money, r: BadDebtResult) {
    var net := Total(entries, NetOf);
    && r.totalAllowanceUsed == Min(opening, net)
    && r.totalLossExpense == Max(0.0, net - opening)
    && r.totalWriteOff == Total(entries, LossOf)
    && r.totalTaxDeduction == Total(entries, DeductibleOf)
    && r.opening == opening && r.afterWriteOff == Max(0.0, opening - net)
  }

  ghost predicate ClosesAt(how: AllowanceMethod, target: Money, r: BadDebtResult) {
    && r.target == target && r.closing == target
    && if how == Reversal then r.reversal == r.afterWriteOff && r.provision == target
       else r.reversal == Max(0.0, r.afterWriteOff - target) && r.provision == Max(0.0, target - r.afterWriteOff)
  }

  lemma YearEndBalances(reversal: Money, provision: Money, date: int)
    ensures AllBalanced(YearEndDrafts(reversal, provision, date))
  {
    if reversal > 0.0 {
      YearEndBooks(ReversalDraft, reversal, date, BadDebtAllowance);
    }
    if provision > 0.0 {
      YearEndBooks(ProvisionDraft, provision, date, BadDebtAllowance);
    }
  }

  /** What the loop gathered and the year end adds make up the result. */
  lemma ReportIsResult(
    entries: seq<Entry>, opening: Money, how: AllowanceMethod, target: Money, date: int, w: WrittenOff,
    r: BadDebtResult)
    requires Progress(entries, opening, date, w) && !how.OtherMethod?
    requires r.reversal == if how == Difference then Max(-(target - w.left), 0.0) else w.left
    requires r.provision == if how == Difference then Max(target - w.left, 0.0) else target
    requires r.drafts == w.drafts + YearEndDrafts(r.reversal, r.provision, date)
    requires r == BadDebtResult(
      r.drafts, w.writeOff, w.used, w.expense, w.tax, opening, w.left, target, r.provision, r.reversal,
      w.left - r.reversal + r.provision, AllBalanced(r.drafts))
    ensures AllProper(entries) && IsResult(entries, opening, how, target, date, r)
  {
    hide WriteOffs, YearEndDrafts, AllProper;
    YearEndBalances(r.reversal, r.provision, date);
  }

  method Generate(
    items: seq<Item>, target: Money, date: int, opening: Money, rates: map<string, real>, treatment: TaxTreatment,
    how: AllowanceMethod)
    returns (r: Result<BadDebtResult, BadDebtError>)
    ensures !Acceptable(opening, treatment, how) || Unknown(items, rates) != {} ==>
      r.Err? && Refused(items, opening, rates, treatment, how, r.error)
    ensures
      Acceptable(opening, treatment, how) && Unknown(items, rates) == {} && FirstItemProblem(items, rates).Some? ==>
      r == Err(FirstItemProblem(items, rates).value)
    ensures
      Acceptable(opening, treatment, how) && Unknown(items, rates) == {} && FirstItemProblem(items, rates).None? ==>
      r.Ok? && AllProper(Entries(items, rates, treatment))
      && IsResult(Entries(items, rates, treatment), opening, how, target, date, r.value)
  {
    if opening < 0.0 {
      return Err(NegativeAllowance);
    }
    if treatment.OtherTreatment? {
      return Err(InvalidTreatment);
    }
    if how.OtherMethod? {
      return Err(InvalidMethod);
    }
    var known := KnownIds(items);
    var unknown := rates.Keys - known;
    assert unknown == Unknown(items, rates);
    if unknown != {} {
      var id := LeastOf(unknown);
      return Err(UnknownReceivable(id));
    }
    hide Progress, IsResult, YearEndDrafts, FirstItemProblem, Entries, Unknown;
    var written := WriteOffAll(items, date, opening, rates, treatment);
    if written.Err? {
      return Err(written.error);
    }
    var w := written.value;
    var reversal, provision := w.left, target;
    if how == Difference {
      provision := Max(target - w.left, 0.0);
      reversal := Max(-(target - w.left), 0.0);
    }
    var drafts := w.drafts + YearEndDrafts(reversal, provision, date);
    var result := BadDebtResult(
      drafts, w.writeOff, w.used, w.expense, w.tax, opening, w.left, target, provision, reversal,
      w.left - reversal + provision, AllBalanced(drafts));
    ReportIsResult(Entries(items, rates, treatment), opening, how, target, date, w, result);
    return Ok(result);
  }

  lemma {:induction false} ItemProblemStays(items: seq<Item>, rates: map<string, real>, n: nat)
    requires n <= |items| && FirstItemProblem(items[..n], rates).Some?
    ensures FirstItemProblem(items, rates) == FirstItemProblem(items[..n], rates)
  {
    if n < |items| {
      assert items[..|items| - 1][..n] == items[..n];
      ItemProblemStays(items[..|items| - 1], rates, n);
    } else {
      assert items[..n] == items;
    }
  }

  // ----- What the journal books -----

  /** Taking what is left, twice, is taking what is left of both. */
  lemma GreedyAdds(opening: Money, n: Money, more: Money)
    requires opening >= 0.0 && n >= 0.0 && more >= 0.0
    ensures var left := Max(0.0, opening - n);
      && Min(opening, n + more) == Min(opening, n) + Min(left, more)
      && Max(0.0, n + more - opening) == Max(0.0, n - opening) + Max(0.0, more - left)
  {
  }

  lemma DebitAdds(role: Role, u: Money, l: Money, t: Money, u': Money, l': Money, t': Money)
    ensures WriteOffDebit(role, u, l, t) + WriteOffDebit(role, u', l', t')
         == WriteOffDebit(role, u + u', l + l', t + t')
  {
  }

  lemma OneMoreDebit(role: Role, opening: Money, n: Money, more: Money, t: Money, t': Money)
    requires opening >= 0.0 && n >= 0.0 && more >= 0.0
    ensures GreedyDebit(role, opening, n, t) + GreedyDebit(role, Max(0.0, opening - n), more, t')
         == GreedyDebit(role, opening, n + more, t + t')
  {
    var left := Max(0.0, opening - n);
    GreedyAdds(opening, n, more);
    DebitAdds(role, Min(opening, n), Max(0.0, n - opening), t, Min(left, more), Max(0.0, more - left), t');
  }

  lemma {:induction false} NetIsNotNegative(entries: seq<Entry>)
    requires AllProper(entries)
    ensures Total(entries, NetOf) >= 0.0
  {
    if entries != [] {
      NetIsNotNegative(entries[..|entries| - 1]);
      assert Proper(entries[|entries| - 1]);
    }
  }

  lemma EntriesSnoc(entries: seq<Entry>)
    requires entries != []
    ensures
      var init, last := entries[..|entries| - 1], entries[|entries| - 1];
      && Total(entries, NetOf) == Total(init, NetOf) + NetOf(last)
      && Total(entries, TaxLineOf) == Total(init, TaxLineOf) + last.taxLine
  {
  }

  lemma LastDraft(entries: seq<Entry>, opening: Money, date: int, role: Role)
    requires entries != [] && Proper(entries[|entries| - 1]) && opening >= 0.0
    ensures
      var init, last := entries[..|entries| - 1], entries[|entries| - 1];
      var left := Left(init, opening);
      var before, after := WriteOffs(init, opening, date), WriteOffs(entries, opening, date);
      && DraftsDebit(after, role) == DraftsDebit(before, role) + GreedyDebit(role, left, NetOf(last), last.taxLine)
      && DraftsCredit(after, role) == DraftsCredit(before, role) + WriteOffCredit(role, last.loss)
  {
    var init, last := entries[..|entries| - 1], entries[|entries| - 1];
    WriteOffBooks(last, Left(init, opening), date, role);
    DraftsSnoc(WriteOffs(init, opening, date), WriteOff(last, Left(init, opening), date).value, role);
  }

  /** The write-off drafts take the allowance used from the allowance, and book losses and taxes. */
  lemma {:induction false} WriteOffsDebit(entries: seq<Entry>, opening: Money, date: int, role: Role)
    requires AllProper(entries) && opening >= 0.0
    ensures DraftsDebit(WriteOffs(entries, opening, date), role)
         == GreedyDebit(role, opening, Total(entries, NetOf), Total(entries, TaxLineOf))
  {
    hide *;
    if entries == [] {
      NothingDebited(opening, date, role);
    } else {
      var init, last := entries[..|entries| - 1], entries[|entries| - 1];
      ProperParts(entries);
      EntriesSnoc(entries);
      WriteOffsDebit(init, opening, date, role);
      LastDebit(entries, opening, date, role);
      OneMoreDebit(role, opening, Total(init, NetOf), NetOf(last), Total(init, TaxLineOf), last.taxLine);
    }
  }

  lemma NothingDebited(opening: Money, date: int, role: Role)
    requires opening >= 0.0
    ensures DraftsDebit(WriteOffs([], opening, date), role)
         == GreedyDebit(role, opening, Total([], NetOf), Total([], TaxLineOf))
  {
  }

  lemma ProperParts(entries: seq<Entry>)
    requires AllProper(entries) && entries != []
    ensures
      var init, last := entries[..|entries| - 1], entries[|entries| - 1];
      AllProper(init) && Proper(last) && NetOf(last) >= 0.0 && Total(init, NetOf) >= 0.0
  {
    assert Proper(entries[|entries| - 1]);
    NetIsNotNegative(entries[..|entries| - 1]);
  }

  lemma LastDebit(entries: seq<Entry>, opening: Money, date: int, role: Role)
    requires entries != [] && Proper(entries[|entries| - 1]) && opening >= 0.0
    ensures
      var init, last := entries[..|entries| - 1], entries[|entries| - 1];
      DraftsDebit(WriteOffs(entries, opening, date), role)
        == DraftsDebit(WriteOffs(init, opening, date), role)
           + GreedyDebit(role, Max(0.0, opening - Total(init, NetOf)), NetOf(last), last.taxLine)
  {
    LastDraft(entries, opening, date, role);
  }

  /** They clear the losses from the receivables, and credit nothing else. */
  lemma {:induction false} WriteOffsCredit(entries: seq<Entry>, opening: Money, date: int, role: Role)
    requires AllProper(entries) && opening >= 0.0
    ensures DraftsCredit(WriteOffs(entries, opening, date), role) == WriteOffCredit(role, Total(entries, LossOf))
  {
    if entries != [] {
      WriteOffsCredit(entries[..|entries| - 1], opening, date, role);
      assert Proper(entries[|entries| - 1]);
      LastDraft(entries, opening, date, role);
    }
  }

  lemma {:induction false} DraftsConcat(a: seq<Draft>, b: seq<Draft>, role: Role)
    ensures DraftsDebit(a + b, role) == DraftsDebit(a, role) + DraftsDebit(b, role)
    ensures DraftsCredit(a + b, role) == DraftsCredit(a, role) + DraftsCredit(b, role)
  {
    if b == [] {
      assert a + b == a;
    } else {
      var init, last := b[..|b| - 1], b[|b| - 1];
      assert a + b == (a + init) + [last] && b == init + [last];
      DraftsConcat(a, init, role);
      DraftsSnoc(a + init, last, role);
      DraftsSnoc(init, last, role);
    }
  }

  lemma YearEndDraftsBook(reversal: Money, provision: Money, date: int)
    ensures DraftsDebit(YearEndDrafts(reversal, provision, date), BadDebtAllowance) == Max(0.0, reversal)
    ensures DraftsCredit(YearEndDrafts(reversal, provision, date), BadDebtAllowance) == Max(0.0, provision)
  {
    hide YearEnd, RoleDebit, RoleCredit;
    var role := BadDebtAllowance;
    var r, p := YearEnd(ReversalDraft, reversal, date), YearEnd(ProvisionDraft, provision, date);
    var first := if reversal > 0.0 && r.Ok? then [r.value] else [];
    if reversal > 0.0 {
      YearEndBooks(ReversalDraft, reversal, date, role);
      DraftsSnoc([], r.value, role);
      assert [] + [r.value] == [r.value];
    }
    if provision > 0.0 {
      YearEndBooks(ProvisionDraft, provision, date, role);
      DraftsSnoc(first, p.value, role);
    }
    assert first + [] == first;
  }

  lemma AllowanceMoves(entries: seq<Entry>, opening: Money, date: int, reversal: Money, provision: Money)
    requires AllProper(entries) && opening >= 0.0
    ensures
      var drafts := WriteOffs(entries, opening, date) + YearEndDrafts(reversal, provision, date);
      && DraftsDebit(drafts, BadDebtAllowance) == Min(opening, Total(entries, NetOf)) + Max(0.0, reversal)
      && DraftsCredit(drafts, BadDebtAllowance) == Max(0.0, provision)
  {
    WriteOffsDebit(entries, opening, date, BadDebtAllowance);
    WriteOffsCredit(entries, opening, date, BadDebtAllowance);
    YearEndDraftsBook(reversal, provision, date);
    DraftsConcat(WriteOffs(entries, opening, date), YearEndDrafts(reversal, provision, date), BadDebtAllowance);
  }

  /**
    * The reported closing balance is always the target. The ledger, which knows only the drafts, agrees with it
    * exactly when the target is not negative or only the difference is booked: no draft books a negative provision.
    */
  lemma LedgerAgreesExactlyWhen(
    entries: seq<Entry>, opening: Money, how: AllowanceMethod, target: Money, date: int, r: BadDebtResult)
    requires AllProper(entries) && opening >= 0.0 && !how.OtherMethod?
    requires IsResult(entries, opening, how, target, date, r)
    ensures
      var ledger := opening + DraftsCredit(r.drafts, BadDebtAllowance) - DraftsDebit(r.drafts, BadDebtAllowance);
      ledger == r.closing <==> how == Difference || target >= 0.0
  {
    hide WriteOffs, YearEndDrafts, Total, AllProper;
    NetIsNotNegative(entries);
    AllowanceMoves(entries, opening, date, r.reversal, r.provision);
  }

  /** With the reversal method and a target of minus one the report closes at minus one and nothing is drafted. No
      assessment has such a target, so it takes one made by hand. */
  lemma NegativeTargetIsNotBooked(date: int)
    ensures
      var r := BadDebtResult([], 0.0, 0.0, 0.0, 0.0, 0.0, 0.0, -1.0, -1.0, 0.0, -1.0, true);
      && IsResult([], 0.0, Reversal, -1.0, date, r) && r.closing == -1.0
      && DraftsCredit(r.drafts, BadDebtAllowance) - DraftsDebit(r.drafts, BadDebtAllowance) == 0.0
  {
    assert YearEndDrafts(0.0, -1.0, date) == [];
    assert WriteOffs([], 0.0, date) + [] == [];
  }

  /** Every yen written off is paid by the allowance, booked as a loss, or put on the tax line. */
  lemma WriteOffIsSplit(
    entries: seq<Entry>, opening: Money, how: AllowanceMethod, target: Money, date: int, r: BadDebtResult)
    requires AllProper(entries) && opening >= 0.0 && IsResult(entries, opening, how, target, date, r)
    ensures r.totalWriteOff == r.totalAllowanceUsed + r.totalLossExpense + Total(entries, TaxLineOf)
    ensures 0.0 <= r.totalAllowanceUsed <= opening && r.totalLossExpense >= 0.0
    ensures r.totalLossExpense > 0.0 ==> r.afterWriteOff == 0.0
  {
    LossIsNetPlusTax(entries);
    NetIsNotNegative(entries);
  }

  lemma {:induction false} LossIsNetPlusTax(entries: seq<Entry>)
    ensures Total(entries, LossOf) == Total(entries, NetOf) + Total(entries, TaxLineOf)
  {
    if entries != [] {
      LossIsNetPlusTax(entries[..|entries| - 1]);
    }
  }

  /** The deduction does not depend on how the books are kept; the tax line is the deduction, or nothing. */
  lemma {:induction false} DeductionIgnoresTreatment(
    items: seq<Item>, rates: map<string, real>, treatment: TaxTreatment)
    ensures
      var entries := Entries(items, rates, treatment);
      && Total(entries, DeductibleOf) == Total(Entries(items, rates, Exclusive), DeductibleOf)
      && Total(entries, TaxLineOf) == if treatment == Exclusive then Total(entries, DeductibleOf) else 0.0
  {
    if items != [] {
      hide Entries, Total, EntryOf, Counted;
      var init, last := items[..|items| - 1], items[|items| - 1];
      assert items == init + [last];
      DeductionIgnoresTreatment(init, rates, treatment);
      EntrySnoc(init, last, rates, treatment, DeductibleOf);
      EntrySnoc(init, last, rates, Exclusive, DeductibleOf);
      EntrySnoc(init, last, rates, treatment, TaxLineOf);
      EntryDeduction(last, rates, treatment);
    }
  }

  lemma EntryDeduction(i: Item, rates: map<string, real>, treatment: TaxTreatment)
    ensures
      var e := EntryOf(i, rates, treatment);
      && e.deductible == EntryOf(i, rates, Exclusive).deductible
      && e.taxLine == if treatment == Exclusive then e.deductible else 0.0
  {
  }

  lemma EntrySnoc(
    items: seq<Item>, i: Item, rates: map<string, real>, treatment: TaxTreatment, f: Entry -> Money)
    ensures Total(Entries(items + [i], rates, treatment), f)
      == Total(Entries(items, rates, treatment), f) + if Counted(i) then f(EntryOf(i, rates, treatment)) else 0.0
  {
    assert (items + [i])[..|items|] == items;
    if Counted(i) {
      TotalSnoc(Entries(items, rates, treatment), EntryOf(i, rates, treatment), f);
    }
  }

  /** `f` on the entry of a counted item, nothing on the others. */
  function OfItem(rates: map<string, real>, treatment: TaxTreatment, f: Entry -> Money): Item -> Money {
    (i: Item) => if Counted(i) then f(EntryOf(i, rates, treatment)) else 0.0
  }

  lemma {:induction false} EntryTotals(
    items: seq<Item>, rates: map<string, real>, treatment: TaxTreatment, f: Entry -> Money)
    ensures Total(Entries(items, rates, treatment), f) == Total(items, OfItem(rates, treatment, f))
  {
    if items != [] {
      var init, last := items[..|items| - 1], items[|items| - 1];
      assert items == init + [last];
      EntryTotals(init, rates, treatment, f);
      EntrySnoc(init, last, rates, treatment, f);
    }
  }

  lemma OrderChangesNoSum(
    items: seq<Item>, reordered: seq<Item>, rates: map<string, real>, treatment: TaxTreatment, f: Entry -> Money)
    requires multiset(items) == multiset(reordered)
    ensures Total(Entries(items, rates, treatment), f) == Total(Entries(reordered, rates, treatment), f)
  {
    EntryTotals(items, rates, treatment, f);
    EntryTotals(reordered, rates, treatment, f);
    TotalPermutation(items, reordered, OfItem(rates, treatment, f));
  }

  /** The order in which receivables are written off decides who uses the allowance, and no total. */
  lemma OrderChangesNoTotal(
    items: seq<Item>, reordered: seq<Item>, opening: Money, rates: map<string, real>, treatment: TaxTreatment,
    how: AllowanceMethod, target: Money, date: int, a: BadDebtResult, b: BadDebtResult)
    requires multiset(items) == multiset(reordered)
    requires IsResult(Entries(items, rates, treatment), opening, how, target, date, a)
    requires IsResult(Entries(reordered, rates, treatment), opening, how, target, date, b)
    ensures a.(drafts := b.drafts) == b
  {
    OrderChangesNoSum(items, reordered, rates, treatment, NetOf);
    OrderChangesNoSum(items, reordered, rates, treatment, LossOf);
    OrderChangesNoSum(items, reordered, rates, treatment, DeductibleOf);
  }
}
