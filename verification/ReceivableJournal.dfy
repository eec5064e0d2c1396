/** Journal drafts generated from a match result: every draft balances, and the ledger moves by what was cleared. */
module ReceivableJournal {
  import opened Wrappers
  import opened Sums
  import opened Journal
  import opened ReceivableMatching
  import opened ReceivableSettlement

  datatype JournalResult = JournalResult(
    drafts: seq<Draft>, receivableCleared: Money, feeExpense: Money, advanceReceived: Money, suspense: Money,
    balanced: bool)

  datatype JournalError = MissingDate(depositId: string) | UnbalancedDraft(depositId: string)

  function ReceivableLines(allocs: seq<Allocation>): seq<Line> {
    if allocs == [] then []
    else
      var last := allocs[|allocs| - 1];
      ReceivableLines(allocs[..|allocs| - 1])
      + [Line(AccountsReceivable, 0.0, last.applied + last.feeAbsorbed, last.invoiceId)]
  }

  function SuspenseLines(r: DepositResult): seq<Line> {
    [Line(BankDeposit, r.amount, 0.0, ""), Line(SuspenseReceipt, 0.0, r.amount, "")]
  }

  function SettlementLines(r: DepositResult): seq<Line> {
    [Line(BankDeposit, r.amount, 0.0, ""), Line(TransferFeeExpense, Total(r.allocations, FeeOf), 0.0, "")]
    + ReceivableLines(r.allocations)
    + [Line(AdvanceReceived, 0.0, r.advance, "")]
  }

  /** What a match guarantees about one of its deposits, whatever the names and balances were. */
  ghost predicate Accountable(r: DepositResult) {
    && r.amount > 0.0
    && r.advance >= 0.0
    && r.amount == Total(r.allocations, AppliedOf) + r.advance + (if r.status == Unmatched then r.amount else 0.0)
    && (r.status == Unmatched <==> r.allocations == [])
    && (r.status == Unmatched ==> r.advance == 0.0)
    && PositiveAllocations(r.allocations)
  }

  ghost predicate PositiveAllocations(allocs: seq<Allocation>) {
    forall i :: 0 <= i < |allocs| ==> allocs[i].applied > 0.0 && allocs[i].feeAbsorbed >= 0.0
  }

  lemma {:induction false} ReceivableLineSums(allocs: seq<Allocation>, role: Role)
    requires PositiveAllocations(allocs)
    ensures NoNegativeLine(ReceivableLines(allocs))
    ensures Total(ReceivableLines(allocs), DebitOf) == 0.0 == RoleDebit(ReceivableLines(allocs), role)
    ensures Total(ReceivableLines(allocs), CreditOf) == Total(allocs, ClearedOf)
    ensures RoleCredit(ReceivableLines(allocs), role)
         == if role == AccountsReceivable then Total(allocs, ClearedOf) else 0.0
  {
    if allocs != [] {
      var init, last := allocs[..|allocs| - 1], allocs[|allocs| - 1];
      ReceivableLineSums(init, role);
      var l := Line(AccountsReceivable, 0.0, last.applied + last.feeAbsorbed, last.invoiceId);
      assert ReceivableLines(allocs) == ReceivableLines(init) + [l];
      SumsSnoc(ReceivableLines(init), l, role);
    }
  }

  lemma {:induction false} ClearedIsAppliedPlusFee(allocs: seq<Allocation>)
    requires PositiveAllocations(allocs)
    ensures Total(allocs, ClearedOf) == Total(allocs, AppliedOf) + Total(allocs, FeeOf)
    ensures Total(allocs, FeeOf) >= 0.0
  {
    if allocs != [] {
      ClearedIsAppliedPlusFee(allocs[..|allocs| - 1]);
    }
  }

  // ----- One deposit -----

  /** What the draft of one deposit books under each role. */
  ghost predicate Books(r: DepositResult, d: Draft) {
    && d.totalDebit == d.totalCredit == Total(d.lines, DebitOf) == Total(d.lines, CreditOf)
    && RoleDebit(d.lines, BankDeposit) == r.amount
    && RoleDebit(d.lines, TransferFeeExpense) == Total(r.allocations, FeeOf)
    && RoleCredit(d.lines, AccountsReceivable) == Total(r.allocations, ClearedOf)
    && RoleCredit(d.lines, AdvanceReceived) == r.advance
    && RoleCredit(d.lines, SuspenseReceipt) == ResultUnmatched(r)
  }

  /** The draft names its deposit, its date and what it is, and each cleared invoice on a line of its own. */
  ghost predicate Names(r: DepositResult, date: int, d: Draft) {
    && d.reference == r.depositId && d.date == date
    && d.kind == (if r.status == Unmatched then SuspenseReceiptDraft else ReceivableSettlementDraft)
    && (forall i :: 0 <= i < |r.allocations| ==> ClearingLine(r.allocations[i]) in d.lines)
    && (forall l :: l in d.lines && l.role == AccountsReceivable ==>
          exists i :: 0 <= i < |r.allocations| && l == ClearingLine(r.allocations[i]))
  }

  /** An invoice cleared by what was applied and the fee absorbed. */
  ghost function ClearingLine(a: Allocation): Line {
    Line(AccountsReceivable, 0.0, a.applied + a.feeAbsorbed, a.invoiceId)
  }

  function DraftFor(r: DepositResult, date: int): Result<Draft, Unbalanced> {
    if r.status == Unmatched then Build(SuspenseReceiptDraft, r.depositId, date, SuspenseLines(r))
    else Build(ReceivableSettlementDraft, r.depositId, date, SettlementLines(r))
  }

  /** The lines of a settled deposit balance, and carry each amount under its own role. */
  lemma SettlementSums(r: DepositResult, role: Role)
    requires Accountable(r) && r.status != Unmatched
    ensures NoNegativeLine(SettlementLines(r))
    ensures Total(SettlementLines(r), DebitOf) == Total(SettlementLines(r), CreditOf)
    ensures RoleDebit(SettlementLines(r), role) ==
      if role == BankDeposit then r.amount
      else if role == TransferFeeExpense then Total(r.allocations, FeeOf) else 0.0
    ensures RoleCredit(SettlementLines(r), role) ==
      if role == AccountsReceivable then Total(r.allocations, ClearedOf)
      else if role == AdvanceReceived then r.advance else 0.0
  {
    var bank := Line(BankDeposit, r.amount, 0.0, "");
    var fee := Line(TransferFeeExpense, Total(r.allocations, FeeOf), 0.0, "");
    var advance := Line(AdvanceReceived, 0.0, r.advance, "");
    ReceivableLineSums(r.allocations, role);
    ClearedIsAppliedPlusFee(r.allocations);
    SurroundedSums(bank, fee, ReceivableLines(r.allocations), advance, role);
  }

  lemma SurroundedSums(a: Line, b: Line, middle: seq<Line>, c: Line, role: Role)
    ensures NoNegativeLine(middle) && NoNegativeLine([a, b, c]) ==> NoNegativeLine([a, b] + middle + [c])
    ensures
      var lines := [a, b] + middle + [c];
      && Total(lines, DebitOf) == a.debit + b.debit + Total(middle, DebitOf) + c.debit
      && Total(lines, CreditOf) == a.credit + b.credit + Total(middle, CreditOf) + c.credit
      && RoleDebit(lines, role) == DebitIf(a, role) + DebitIf(b, role) + RoleDebit(middle, role) + DebitIf(c, role)
      && RoleCredit(lines, role) == CreditIf(a, role) + CreditIf(b, role) + RoleCredit(middle, role) + CreditIf(c, role)
  {
    SumsPair(a, b, role);
    SumsConcat([a, b], middle, role);
    SumsSnoc([a, b] + middle, c, role);
    assert [a, b, c][0] == a && [a, b, c][1] == b && [a, b, c][2] == c;
  }

  /** What any draft of an accountable deposit books under one role. */
  lemma DraftBooksRole(r: DepositResult, date: int, role: Role)
    requires Accountable(r)
    ensures DraftFor(r, date).Ok?
    ensures
      var d := DraftFor(r, date).value;
      && d.totalDebit == d.totalCredit == Total(d.lines, DebitOf) == Total(d.lines, CreditOf)
      && RoleDebit(d.lines, role) == (
           if role == BankDeposit then r.amount
           else if role == TransferFeeExpense then Total(r.allocations, FeeOf) else 0.0)
      && RoleCredit(d.lines, role) == (
           if role == AccountsReceivable then Total(r.allocations, ClearedOf)
           else if role == AdvanceReceived then r.advance
           else if role == SuspenseReceipt then ResultUnmatched(r) else 0.0)
  {
    if r.status == Unmatched {
      SumsPair(Line(BankDeposit, r.amount, 0.0, ""), Line(SuspenseReceipt, 0.0, r.amount, ""), role);
      BuildKeepsSums(SuspenseReceiptDraft, r.depositId, date, SuspenseLines(r), role);
    } else {
      SettlementSums(r, role);
      BuildKeepsSums(ReceivableSettlementDraft, r.depositId, date, SettlementLines(r), role);
    }
  }

  /** The draft of an accountable deposit always balances, so the unbalanced error cannot occur. */
  lemma DraftNeverFails(r: DepositResult, date: int)
    requires Accountable(r)
    ensures DraftFor(r, date).Ok? && Books(r, DraftFor(r, date).value)
  {
    DraftBooksRole(r, date, BankDeposit);
    DraftBooksRole(r, date, TransferFeeExpense);
    DraftBooksRole(r, date, AccountsReceivable);
    DraftBooksRole(r, date, AdvanceReceived);
    DraftBooksRole(r, date, SuspenseReceipt);
  }

  lemma {:induction false} ReceivableLinesAre(allocs: seq<Allocation>)
    ensures |ReceivableLines(allocs)| == |allocs|
    ensures forall i :: 0 <= i < |allocs| ==> ReceivableLines(allocs)[i] == ClearingLine(allocs[i])
  {
    if allocs != [] {
      ReceivableLinesAre(allocs[..|allocs| - 1]);
    }
  }

  lemma SettlementNames(r: DepositResult, d: Draft)
    requires Accountable(r) && r.status != Unmatched
    requires forall l :: l in d.lines <==> l in SettlementLines(r) && (l.debit > 0.0 || l.credit > 0.0)
    ensures forall i :: 0 <= i < |r.allocations| ==> ClearingLine(r.allocations[i]) in d.lines
    ensures forall l :: l in d.lines && l.role == AccountsReceivable ==>
      exists i :: 0 <= i < |r.allocations| && l == ClearingLine(r.allocations[i])
  {
    ReceivableLinesAre(r.allocations);
    var middle := ReceivableLines(r.allocations);
    forall i | 0 <= i < |r.allocations|
      ensures ClearingLine(r.allocations[i]) in d.lines
    {
      assert middle[i] in middle;
      assert middle[i] in SettlementLines(r);
    }
    forall l | l in d.lines && l.role == AccountsReceivable
      ensures exists i :: 0 <= i < |r.allocations| && l == ClearingLine(r.allocations[i])
    {
      assert l in middle;
      var i :| 0 <= i < |middle| && middle[i] == l;
      assert l == ClearingLine(r.allocations[i]);
    }
  }

  lemma DraftNames(r: DepositResult, date: int)
    requires Accountable(r)
    ensures DraftFor(r, date).Ok? && Names(r, date, DraftFor(r, date).value)
  {
    DraftBooksRole(r, date, BankDeposit);
    hide RoleDebit, RoleCredit, Total, Kept;
    if r.status == Unmatched {
      SumsPair(Line(BankDeposit, r.amount, 0.0, ""), Line(SuspenseReceipt, 0.0, r.amount, ""), BankDeposit);
      BuildKeepsSums(SuspenseReceiptDraft, r.depositId, date, SuspenseLines(r), BankDeposit);
    } else {
      SettlementSums(r, BankDeposit);
      BuildKeepsSums(ReceivableSettlementDraft, r.depositId, date, SettlementLines(r), BankDeposit);
      hide SettlementLines, Accountable;
      SettlementNames(r, DraftFor(r, date).value);
    }
  }

  // ----- All deposits -----

  predicate Dated(results: seq<DepositResult>, dates: map<string, int>) {
    forall r :: r in results ==> r.depositId in dates
  }

  function ResultCleared(r: DepositResult): Money { Total(r.allocations, ClearedOf) }
  function ResultFees(r: DepositResult): Money { Total(r.allocations, FeeOf) }
  function ResultAmount(r: DepositResult): Money { r.amount }

  /** The generated journal, role by role, against the match it came from. */
  ghost predicate JournalBooks(results: seq<DepositResult>, drafts: seq<Draft>) {
    && |drafts| == |results|
    && (forall i :: 0 <= i < |drafts| ==> Books(results[i], drafts[i]))
    && JournalTotals(results, drafts)
  }

  ghost predicate JournalTotals(results: seq<DepositResult>, drafts: seq<Draft>) {
    && DraftsDebit(drafts, BankDeposit) == Total(results, ResultAmount)
    && DraftsDebit(drafts, TransferFeeExpense) == Total(results, ResultFees)
    && DraftsCredit(drafts, AccountsReceivable) == Total(results, ResultCleared)
    && DraftsCredit(drafts, AdvanceReceived) == Total(results, ResultAdvance)
    && DraftsCredit(drafts, SuspenseReceipt) == Total(results, ResultUnmatched)
  }

  lemma JournalStarts()
    ensures JournalBooks([], [])
  {
  }

  lemma JournalSnoc(results: seq<DepositResult>, drafts: seq<Draft>, r: DepositResult, d: Draft)
    requires JournalBooks(results, drafts) && Books(r, d)
    ensures JournalBooks(results + [r], drafts + [d])
  {
    assert (drafts + [d])[..|drafts|] == drafts && (results + [r])[..|results|] == results;
  }

  lemma JournalFigures(results: seq<DepositResult>, drafts: seq<Draft>)
    requires JournalBooks(results, drafts)
    ensures JournalTotals(results, drafts) && AllBalanced(drafts)
  {
  }

  /** The drafts are those of the deposits, one each and in their order. */
  ghost predicate AllNamed(results: seq<DepositResult>, dates: map<string, int>, drafts: seq<Draft>) {
    && |drafts| == |results|
    && forall i {:trigger drafts[i]} :: 0 <= i < |drafts| ==>
         results[i].depositId in dates && Names(results[i], dates[results[i].depositId], drafts[i])
  }

  /** Draft generation fails exactly when a deposit has no date, and never because a draft is unbalanced. */
  method Generate(results: seq<DepositResult>, dates: map<string, int>) returns (j: Result<JournalResult, JournalError>)
    requires forall i :: 0 <= i < |results| ==> Accountable(results[i])
    ensures j.Ok? <==> Dated(results, dates)
    ensures j.Err? ==> exists i ::
      && 0 <= i < |results| && j.error == MissingDate(results[i].depositId) && results[i].depositId !in dates
      && forall k :: 0 <= k < i ==> results[k].depositId in dates
    ensures j.Ok? ==> AllNamed(results, dates, j.value.drafts)
    ensures j.Ok? ==> JournalBooks(results, j.value.drafts) && j.value.balanced
    ensures j.Ok? ==>
      && j.value.receivableCleared == Total(results, ResultCleared)
      && j.value.feeExpense == Total(results, ResultFees)
      && j.value.advanceReceived == Total(results, ResultAdvance)
      && j.value.suspense == Total(results, ResultUnmatched)
  {
    hide DraftFor, Accountable, Books, JournalBooks, Names;
    var drafts: seq<Draft> := [];
    JournalStarts();
    for i := 0 to |results|
      invariant JournalBooks(results[..i], drafts)
      invariant forall k :: 0 <= k < i ==> results[k].depositId in dates
      invariant AllNamed(results[..i], dates, drafts)
    {
      var r := results[i];
      if r.depositId !in dates {
        return Err(MissingDate(r.depositId));
      }
      var draft := DraftFor(r, dates[r.depositId]);
      DraftNeverFails(r, dates[r.depositId]);
      DraftNames(r, dates[r.depositId]);
      if draft.Err? {
        return Err(UnbalancedDraft(r.depositId));
      }
      JournalSnoc(results[..i], drafts, r, draft.value);
      assert results[..i + 1] == results[..i] + [r];
      drafts := drafts + [draft.value];
    }
    assert results[..|results|] == results;
    JournalFigures(results, drafts);
    return Ok(JournalResult(
      drafts, DraftsCredit(drafts, AccountsReceivable), DraftsDebit(drafts, TransferFeeExpense),
      DraftsCredit(drafts, AdvanceReceived), DraftsCredit(drafts, SuspenseReceipt), AllBalanced(drafts)));
  }

  // ----- From a match to its journal -----

  /** Every deposit of every match is accountable, so the journal of a match is never refused as unbalanced. */
  lemma MatchIsAccountable(
    deposits: seq<Deposit>, invoices: seq<OpenInvoice>, naming: Naming, feeTolerance: Money,
    results: seq<DepositResult>, k: nat)
    requires Admissible(deposits, invoices) && IsRun(deposits, invoices, naming, feeTolerance, results)
    requires k < |results|
    ensures Accountable(results[k])
  {
    PrefixIsRun(deposits, invoices, naming, feeTolerance, results, k);
    RunNeverNegative(deposits, invoices, naming, feeTolerance, results[..k]);
    StepConserves(invoices, naming, feeTolerance, Ledger(results[..k]), deposits[k], results[k]);
    forall i | 0 <= i < |results[k].allocations|
      ensures results[k].allocations[i].applied > 0.0 && results[k].allocations[i].feeAbsorbed >= 0.0
    {
      assert LineSound(invoices, Balances(invoices, Ledger(results[..k])), feeTolerance, results[k].allocations[i]);
    }
  }

  lemma {:induction false} LedgerTotals(results: seq<DepositResult>)
    ensures Total(Ledger(results), ClearedOf) == Total(results, ResultCleared)
  {
    if results != [] {
      var n := |results| - 1;
      LedgerTotals(results[..n]);
      TotalConcat(Ledger(results[..n]), results[n].allocations, ClearedOf);
    }
  }

  lemma {:induction false} ClearedIsAppliedPlusFees(results: seq<DepositResult>)
    requires forall i :: 0 <= i < |results| ==>
      Accountable(results[i]) && results[i].applied == Total(results[i].allocations, AppliedOf)
    ensures Total(results, ResultCleared) == Total(results, ResultApplied) + Total(results, ResultFees)
  {
    if results != [] {
      var n := |results| - 1;
      ClearedIsAppliedPlusFees(results[..n]);
      ClearedIsAppliedPlusFee(results[n].allocations);
    }
  }

  /** The journal of a match credits receivables by exactly what invoices lost, and what it credits in all is
      the deposits plus the absorbed fees. */
  lemma JournalAgreesWithMatch(
    deposits: seq<Deposit>, invoices: seq<OpenInvoice>, naming: Naming, feeTolerance: Money,
    m: MatchResult, j: JournalResult)
    requires Admissible(deposits, invoices) && Reports(deposits, invoices, naming, feeTolerance, m)
    requires j.receivableCleared == Total(m.deposits, ResultCleared) && j.feeExpense == Total(m.deposits, ResultFees)
    requires j.advanceReceived == Total(m.deposits, ResultAdvance) && j.suspense == Total(m.deposits, ResultUnmatched)
    ensures j.receivableCleared == Total(invoices, InvoiceAmount) - m.totalOutstanding
    ensures j.receivableCleared + j.advanceReceived + j.suspense == Total(deposits, DepositAmount) + j.feeExpense
  {
    MatchConserves(deposits, invoices, naming, feeTolerance, m);
    LedgerTotals(m.deposits);
    forall k | 0 <= k < |m.deposits|
      ensures Accountable(m.deposits[k]) && m.deposits[k].applied == Total(m.deposits[k].allocations, AppliedOf)
    {
      MatchIsAccountable(deposits, invoices, naming, feeTolerance, m.deposits, k);
      assert Step(invoices, naming, feeTolerance, Ledger(m.deposits[..k]), deposits[k], m.deposits[k]);
    }
    ClearedIsAppliedPlusFees(m.deposits);
  }

  lemma MatchedIsReady(
    deposits: seq<Deposit>, invoices: seq<OpenInvoice>, naming: Naming, feeTolerance: Money, m: MatchResult,
    dates: map<string, int>)
    requires Admissible(deposits, invoices) && Reports(deposits, invoices, naming, feeTolerance, m)
    requires forall d :: d in deposits ==> d.id in dates
    ensures Dated(m.deposits, dates) && forall k :: 0 <= k < |m.deposits| ==> Accountable(m.deposits[k])
  {
    hide Accountable;
    forall k | 0 <= k < |m.deposits|
      ensures Accountable(m.deposits[k]) && m.deposits[k].depositId in dates
    {
      MatchIsAccountable(deposits, invoices, naming, feeTolerance, m.deposits, k);
      assert Step(invoices, naming, feeTolerance, Ledger(m.deposits[..k]), deposits[k], m.deposits[k]);
      assert deposits[k] in deposits;
    }
  }

  /** Matching and then journalling never raises, for any deposits and invoices the matcher accepts and any
      table holding a date for each deposit. */
  method MatchAndJournal(
    deposits: seq<Deposit>, invoices: seq<OpenInvoice>, feeTolerance: Money, naming: Naming, dates: map<string, int>)
    returns (m: MatchResult, j: JournalResult)
    requires Validate(deposits, invoices, feeTolerance, naming).None?
    requires forall d :: d in deposits ==> d.id in dates
    ensures Reports(deposits, invoices, naming, feeTolerance, m) && JournalBooks(m.deposits, j.drafts) && j.balanced
    ensures j.receivableCleared == Total(invoices, InvoiceAmount) - m.totalOutstanding
    ensures j.receivableCleared + j.advanceReceived + j.suspense == Total(deposits, DepositAmount) + j.feeExpense
  {
    hide Accountable, JournalBooks, Reports, Dated;
    var matched := Match(deposits, invoices, feeTolerance, naming);
    m := matched.value;
    assert Admissible(deposits, invoices);
    MatchedIsReady(deposits, invoices, naming, feeTolerance, m, dates);
    var journal := Generate(m.deposits, dates);
    j := journal.value;
    JournalAgreesWithMatch(deposits, invoices, naming, feeTolerance, m, j);
  }
}
