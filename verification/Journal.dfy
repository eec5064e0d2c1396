/** Journal lines and drafts, as the three draft generators share them. */
module Journal {
  import opened Wrappers
  import opened Sums

  datatype Role =
    | BankDeposit | AccountsReceivable | TransferFeeExpense | AdvanceReceived | SuspenseReceipt
    | SalesRevenue | ConsumptionTaxPayable
    | BadDebtAllowance | BadDebtLoss | ConsumptionTaxReceived | AllowanceProvision | AllowanceReversal

  datatype Line = Line(role: Role, debit: Money, credit: Money, reference: string)

  datatype DraftKind =
    | ReceivableSettlementDraft | SuspenseReceiptDraft | SalesDraft
    | WriteOffDraft | ProvisionDraft | ReversalDraft

  datatype Draft = Draft(
    kind: DraftKind, reference: string, date: int, lines: seq<Line>, totalDebit: Money, totalCredit: Money)

  datatype Unbalanced = Unbalanced(reference: string)

  function DebitOf(l: Line): Money { l.debit }
  function CreditOf(l: Line): Money { l.credit }

  function DebitIf(l: Line, role: Role): Money { if l.role == role then l.debit else 0.0 }
  function CreditIf(l: Line, role: Role): Money { if l.role == role then l.credit else 0.0 }

  function RoleDebit(lines: seq<Line>, role: Role): Money {
    if lines == [] then 0.0
    else RoleDebit(lines[..|lines| - 1], role) + DebitIf(lines[|lines| - 1], role)
  }

  function RoleCredit(lines: seq<Line>, role: Role): Money {
    if lines == [] then 0.0
    else RoleCredit(lines[..|lines| - 1], role) + CreditIf(lines[|lines| - 1], role)
  }

  /** The same sums over all the drafts of a journal. */
  function DraftsDebit(drafts: seq<Draft>, role: Role): Money {
    if drafts == [] then 0.0
    else DraftsDebit(drafts[..|drafts| - 1], role) + RoleDebit(drafts[|drafts| - 1].lines, role)
  }

  function DraftsCredit(drafts: seq<Draft>, role: Role): Money {
    if drafts == [] then 0.0
    else DraftsCredit(drafts[..|drafts| - 1], role) + RoleCredit(drafts[|drafts| - 1].lines, role)
  }

  /** Lines that carry no amount are dropped. */
  function Kept(lines: seq<Line>): seq<Line> {
    if lines == [] then []
    else
      var kept, last := Kept(lines[..|lines| - 1]), lines[|lines| - 1];
      if last.debit > 0.0 || last.credit > 0.0 then kept + [last] else kept
  }

  function Build(kind: DraftKind, reference: string, date: int, lines: seq<Line>): Result<Draft, Unbalanced> {
    var kept := Kept(lines);
    var debit, credit := Total(kept, DebitOf), Total(kept, CreditOf);
    if debit != credit then Err(Unbalanced(reference)) else Ok(Draft(kind, reference, date, kept, debit, credit))
  }

  predicate AllBalanced(drafts: seq<Draft>) {
    forall d :: d in drafts ==> d.totalDebit == d.totalCredit
  }

  ghost predicate NoNegativeLine(lines: seq<Line>) {
    forall i :: 0 <= i < |lines| ==> lines[i].debit >= 0.0 && lines[i].credit >= 0.0
  }

  lemma SumsSnoc(lines: seq<Line>, l: Line, role: Role)
    ensures Total(lines + [l], DebitOf) == Total(lines, DebitOf) + l.debit
    ensures Total(lines + [l], CreditOf) == Total(lines, CreditOf) + l.credit
    ensures RoleDebit(lines + [l], role) == RoleDebit(lines, role) + DebitIf(l, role)
    ensures RoleCredit(lines + [l], role) == RoleCredit(lines, role) + CreditIf(l, role)
  {
    assert (lines + [l])[..|lines|] == lines;
  }

  lemma {:induction false} SumsConcat(a: seq<Line>, b: seq<Line>, role: Role)
    ensures Total(a + b, DebitOf) == Total(a, DebitOf) + Total(b, DebitOf)
    ensures Total(a + b, CreditOf) == Total(a, CreditOf) + Total(b, CreditOf)
    ensures RoleDebit(a + b, role) == RoleDebit(a, role) + RoleDebit(b, role)
    ensures RoleCredit(a + b, role) == RoleCredit(a, role) + RoleCredit(b, role)
  {
    if b == [] {
      assert a + b == a;
    } else {
      var init, last := b[..|b| - 1], b[|b| - 1];
      assert a + b == (a + init) + [last] && b == init + [last];
      SumsConcat(a, init, role);
      SumsSnoc(a + init, last, role);
      SumsSnoc(init, last, role);
    }
  }

  lemma SumsPair(a: Line, b: Line, role: Role)
    ensures Total([a, b], DebitOf) == a.debit + b.debit
    ensures Total([a, b], CreditOf) == a.credit + b.credit
    ensures RoleDebit([a, b], role) == DebitIf(a, role) + DebitIf(b, role)
    ensures RoleCredit([a, b], role) == CreditIf(a, role) + CreditIf(b, role)
  {
    assert [a, b] == ([] + [a]) + [b];
    SumsSnoc([], a, role);
    SumsSnoc([] + [a], b, role);
  }

  /** Dropping empty lines changes no sum. */
  lemma {:induction false} KeptSums(lines: seq<Line>, role: Role)
    requires NoNegativeLine(lines)
    ensures Total(Kept(lines), DebitOf) == Total(lines, DebitOf)
    ensures Total(Kept(lines), CreditOf) == Total(lines, CreditOf)
    ensures RoleDebit(Kept(lines), role) == RoleDebit(lines, role)
    ensures RoleCredit(Kept(lines), role) == RoleCredit(lines, role)
  {
    if lines != [] {
      var init, last := lines[..|lines| - 1], lines[|lines| - 1];
      assert lines == init + [last];
      KeptSums(init, role);
      SumsSnoc(init, last, role);
      SumsSnoc(Kept(init), last, role);
    }
  }

  lemma {:induction false} KeptMembers(lines: seq<Line>)
    ensures forall l :: l in Kept(lines) <==> l in lines && (l.debit > 0.0 || l.credit > 0.0)
  {
    if lines != [] {
      var init, last := lines[..|lines| - 1], lines[|lines| - 1];
      assert lines == init + [last];
      KeptMembers(init);
    }
  }

  /** A draft is refused exactly when its lines do not balance; an accepted one keeps every sum of its lines. */
  lemma BuildKeepsSums(kind: DraftKind, reference: string, date: int, lines: seq<Line>, role: Role)
    requires NoNegativeLine(lines)
    ensures Build(kind, reference, date, lines).Ok? <==> Total(lines, DebitOf) == Total(lines, CreditOf)
    ensures Build(kind, reference, date, lines).Ok? ==>
      var d := Build(kind, reference, date, lines).value;
      && d.kind == kind && d.reference == reference && d.date == date
      && (forall l :: l in d.lines <==> l in lines && (l.debit > 0.0 || l.credit > 0.0))
      && d.totalDebit == d.totalCredit == Total(d.lines, DebitOf) == Total(d.lines, CreditOf)
      && d.totalDebit == Total(lines, DebitOf)
      && RoleDebit(d.lines, role) == RoleDebit(lines, role)
      && RoleCredit(d.lines, role) == RoleCredit(lines, role)
  {
    KeptSums(lines, role);
    KeptMembers(lines);
  }

  lemma DraftsSnoc(drafts: seq<Draft>, d: Draft, role: Role)
    ensures DraftsDebit(drafts + [d], role) == DraftsDebit(drafts, role) + RoleDebit(d.lines, role)
    ensures DraftsCredit(drafts + [d], role) == DraftsCredit(drafts, role) + RoleCredit(d.lines, role)
  {
    assert (drafts + [d])[..|drafts|] == drafts;
  }
}
