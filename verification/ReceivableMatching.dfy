/** Matching bank deposits against open invoices, and what it conserves. */
module ReceivableMatching {
  import opened Wrappers
  import opened Sums
  import opened Lists
  import opened Sorting
  import opened SubsetSum

  datatype OpenInvoice = OpenInvoice(id: string, customer: string, amount: Money, dueDate: int)

  datatype Deposit = Deposit(id: string, transactionDate: int, amount: Money, remitter: string)

  datatype ApplyKind = Exact | Aggregate | FeeAdjusted | Partial

  datatype Allocation = Allocation(invoiceId: string, applied: Money, feeAbsorbed: Money, kind: ApplyKind)

  datatype Status = Settled | PartlySettled | Advance | Unmatched

  datatype DepositResult = DepositResult(
    depositId: string, amount: Money, status: Status, allocations: seq<Allocation>, applied: Money, advance: Money)

  datatype InvoiceBalance = InvoiceBalance(
    invoiceId: string, amount: Money, applied: Money, outstanding: Money, settled: bool)

  datatype MatchResult = MatchResult(
    deposits: seq<DepositResult>,
    invoices: seq<InvoiceBalance>,
    totalApplied: Money,
    totalAdvance: Money,
    totalUnmatched: Money,
    totalOutstanding: Money,
    settledInvoiceIds: seq<string>,
    unmatchedDepositIds: seq<string>)

  datatype MatchError =
    | NegativeFeeTolerance
    | ThresholdOutOfRange
    | NonPositiveDeposit
    | NonPositiveInvoice
    | DuplicateDepositId
    | DuplicateInvoiceId

  /** How alike a remitter name and a customer name are; the matcher never looks inside it. */
  datatype Naming = Naming(similarity: (string, string) -> real, threshold: real) {
    predicate Matches(d: Deposit, inv: OpenInvoice) {
      similarity(d.remitter, inv.customer) >= threshold
    }
  }

  function InvoiceIds(invoices: seq<OpenInvoice>): (ids: seq<string>)
    ensures |ids| == |invoices| && forall i :: 0 <= i < |ids| ==> ids[i] == invoices[i].id
  {
    seq(|invoices|, i requires 0 <= i < |invoices| => invoices[i].id)
  }

  function DepositIds(deposits: seq<Deposit>): seq<string> {
    seq(|deposits|, i requires 0 <= i < |deposits| => deposits[i].id)
  }

  function Validate(deposits: seq<Deposit>, invoices: seq<OpenInvoice>, feeTolerance: Money, naming: Naming)
    : Option<MatchError>
  {
    if feeTolerance < 0.0 then Some(NegativeFeeTolerance)
    else if !(0.0 <= naming.threshold <= 1.0) then Some(ThresholdOutOfRange)
    else if exists d :: d in deposits && d.amount <= 0.0 then Some(NonPositiveDeposit)
    else if exists inv :: inv in invoices && inv.amount <= 0.0 then Some(NonPositiveInvoice)
    else if !Distinct(DepositIds(deposits)) then Some(DuplicateDepositId)
    else if !Distinct(InvoiceIds(invoices)) then Some(DuplicateInvoiceId)
    else None
  }

  ghost predicate DepositsAreTold(deposits: seq<Deposit>) {
    forall i, j :: 0 <= i < j < |deposits| ==> deposits[i].id != deposits[j].id
  }

  ghost predicate InvoicesAreTold(invoices: seq<OpenInvoice>) {
    forall i, j :: 0 <= i < j < |invoices| ==> invoices[i].id != invoices[j].id
  }

  /** What is refused, and that each complaint comes only when all those before it do not apply. */
  lemma RefusedExactlyWhen(
    deposits: seq<Deposit>, invoices: seq<OpenInvoice>, feeTolerance: Money, naming: Naming)
    ensures Validate(deposits, invoices, feeTolerance, naming).None? <==>
      && feeTolerance >= 0.0 && 0.0 <= naming.threshold <= 1.0
      && (forall i :: 0 <= i < |deposits| ==> deposits[i].amount > 0.0)
      && (forall i :: 0 <= i < |invoices| ==> invoices[i].amount > 0.0)
      && DepositsAreTold(deposits) && InvoicesAreTold(invoices)
    ensures
      var e := Validate(deposits, invoices, feeTolerance, naming);
      && (e == Some(NegativeFeeTolerance) <==> feeTolerance < 0.0)
      && (e == Some(ThresholdOutOfRange) ==>
            feeTolerance >= 0.0 && (naming.threshold < 0.0 || naming.threshold > 1.0))
      && (e == Some(NonPositiveDeposit) ==>
            feeTolerance >= 0.0 && 0.0 <= naming.threshold <= 1.0 && exists d :: d in deposits && d.amount <= 0.0)
      && (e == Some(NonPositiveInvoice) ==>
            && feeTolerance >= 0.0 && 0.0 <= naming.threshold <= 1.0
            && (forall i :: 0 <= i < |deposits| ==> deposits[i].amount > 0.0)
            && exists inv :: inv in invoices && inv.amount <= 0.0)
      && (e == Some(DuplicateDepositId) ==>
            && feeTolerance >= 0.0 && 0.0 <= naming.threshold <= 1.0
            && (forall i :: 0 <= i < |deposits| ==> deposits[i].amount > 0.0)
            && (forall i :: 0 <= i < |invoices| ==> invoices[i].amount > 0.0)
            && !DepositsAreTold(deposits))
      && (e == Some(DuplicateInvoiceId) ==>
            && feeTolerance >= 0.0 && 0.0 <= naming.threshold <= 1.0
            && (forall i :: 0 <= i < |deposits| ==> deposits[i].amount > 0.0)
            && (forall i :: 0 <= i < |invoices| ==> invoices[i].amount > 0.0)
            && DepositsAreTold(deposits) && !InvoicesAreTold(invoices))
  {
    var ids, names := DepositIds(deposits), InvoiceIds(invoices);
    assert DepositsAreTold(deposits) <==> Distinct(ids) by {
      assert forall i :: 0 <= i < |ids| ==> ids[i] == deposits[i].id;
    }
    assert InvoicesAreTold(invoices) <==> Distinct(names) by {
      assert forall i :: 0 <= i < |names| ==> names[i] == invoices[i].id;
    }
  }

  // ----- Reading the books: what a list of allocations has done to one invoice -----

  function AppliedOf(a: Allocation): Money { a.applied }
  function FeeOf(a: Allocation): Money { a.feeAbsorbed }
  function ClearedOf(a: Allocation): Money { a.applied + a.feeAbsorbed }

  ghost function AppliedTo(allocs: seq<Allocation>, id: string): Money {
    if allocs == [] then 0.0
    else
      var last := allocs[|allocs| - 1];
      AppliedTo(allocs[..|allocs| - 1], id) + if last.invoiceId == id then last.applied else 0.0
  }

  ghost function FeesOn(allocs: seq<Allocation>, id: string): Money {
    if allocs == [] then 0.0
    else
      var last := allocs[|allocs| - 1];
      FeesOn(allocs[..|allocs| - 1], id) + if last.invoiceId == id then last.feeAbsorbed else 0.0
  }

  lemma LedgerSnoc(allocs: seq<Allocation>, a: Allocation, id: string)
    ensures AppliedTo(allocs + [a], id) == AppliedTo(allocs, id) + if a.invoiceId == id then a.applied else 0.0
    ensures FeesOn(allocs + [a], id) == FeesOn(allocs, id) + if a.invoiceId == id then a.feeAbsorbed else 0.0
  {
    assert (allocs + [a])[..|allocs|] == allocs;
  }

  /** Every allocation made by the first deposits, in order. */
  ghost function Ledger(results: seq<DepositResult>): seq<Allocation> {
    if results == [] then []
    else Ledger(results[..|results| - 1]) + results[|results| - 1].allocations
  }

  lemma LedgerGrows(results: seq<DepositResult>, r: DepositResult)
    ensures Ledger(results + [r]) == Ledger(results) + r.allocations
  {
    assert (results + [r])[..|results|] == results;
  }

  ghost function IdSet(invoices: seq<OpenInvoice>): set<string> {
    set inv | inv in invoices :: inv.id
  }

  ghost function AmountOf(invoices: seq<OpenInvoice>, id: string): Money {
    if invoices == [] then 0.0
    else if invoices[|invoices| - 1].id == id then invoices[|invoices| - 1].amount
    else AmountOf(invoices[..|invoices| - 1], id)
  }

  lemma {:induction false} AmountAt(invoices: seq<OpenInvoice>, k: nat)
    requires k < |invoices| && Distinct(InvoiceIds(invoices))
    ensures AmountOf(invoices, invoices[k].id) == invoices[k].amount
  {
    var n := |invoices| - 1;
    if k < n {
      assert InvoiceIds(invoices)[k] != InvoiceIds(invoices)[n];
      assert InvoiceIds(invoices[..n]) == InvoiceIds(invoices)[..n];
      AmountAt(invoices[..n], k);
    }
  }

  /** What each invoice still owes once `allocs` have been made. */
  ghost function Balances(invoices: seq<OpenInvoice>, allocs: seq<Allocation>): map<string, Money> {
    map id | id in IdSet(invoices) :: AmountOf(invoices, id) - AppliedTo(allocs, id) - FeesOn(allocs, id)
  }

  lemma BalancesSnoc(invoices: seq<OpenInvoice>, allocs: seq<Allocation>, a: Allocation)
    requires a.invoiceId in IdSet(invoices)
    ensures Balances(invoices, allocs + [a])
         == Balances(invoices, allocs)[a.invoiceId := Balances(invoices, allocs)[a.invoiceId] - ClearedOf(a)]
  {
    forall id | id in IdSet(invoices)
      ensures Balances(invoices, allocs + [a])[id]
           == Balances(invoices, allocs)[id] - if a.invoiceId == id then ClearedOf(a) else 0.0
    {
      LedgerSnoc(allocs, a, id);
    }
  }

  // ----- One deposit -----

  function DueKey(inv: OpenInvoice): Key { Key(inv.dueDate, inv.id) }

  function Balance(outstanding: map<string, Money>, inv: OpenInvoice): Money {
    if inv.id in outstanding then outstanding[inv.id] else 0.0
  }

  /** An earlier due date comes first, and on one date the smaller identifier. */
  predicate OlderFirst(a: OpenInvoice, b: OpenInvoice) {
    a.dueDate < b.dueDate || (a.dueDate == b.dueDate && TextLeq(a.id, b.id))
  }

  /** The open invoices whose name matches, oldest due date first. */
  function Candidates(d: Deposit, invoices: seq<OpenInvoice>, outstanding: map<string, Money>, naming: Naming)
    : seq<OpenInvoice>
  {
    SortBy(Filter(invoices, inv => Balance(outstanding, inv) > 0.0 && naming.Matches(d, inv)), DueKey)
  }

  lemma CandidatesAre(d: Deposit, invoices: seq<OpenInvoice>, outstanding: map<string, Money>, naming: Naming)
    requires Distinct(InvoiceIds(invoices))
    ensures
      var cs := Candidates(d, invoices, outstanding, naming);
      && (forall inv :: inv in cs <==>
            && inv in invoices && inv.id in outstanding && outstanding[inv.id] > 0.0
            && naming.similarity(d.remitter, inv.customer) >= naming.threshold)
      && (forall i, j :: 0 <= i < j < |cs| ==> OlderFirst(cs[i], cs[j]))
      && Distinct(InvoiceIds(cs))
  {
    var p := (inv: OpenInvoice) => Balance(outstanding, inv) > 0.0 && naming.Matches(d, inv);
    var open := Filter(invoices, p);
    var cs := SortBy(open, DueKey);
    assert cs == Candidates(d, invoices, outstanding, naming);
    FilterMembers(invoices, p);
    SortMembers(open, DueKey);
    SortBySorted(open, DueKey);
    assert Distinct(invoices) by {
      forall i, j | 0 <= i < j < |invoices| ensures invoices[i] != invoices[j] {
        assert InvoiceIds(invoices)[i] != InvoiceIds(invoices)[j];
      }
    }
    FilterDistinct(invoices, p);
    DistinctPermutation(open, cs);
    forall i, j | 0 <= i < j < |cs|
      ensures cs[i].id != cs[j].id
    {
      assert cs[i] in invoices && cs[j] in invoices;
      var m :| 0 <= m < |invoices| && invoices[m] == cs[i];
      var n :| 0 <= n < |invoices| && invoices[n] == cs[j];
      assert m != n;
      assert InvoiceIds(invoices)[m] != InvoiceIds(invoices)[n];
    }
  }

  function ToItems(candidates: seq<OpenInvoice>, outstanding: map<string, Money>): (items: seq<Item>)
    ensures |items| == |candidates|
    ensures forall i :: 0 <= i < |items| ==> items[i] == Item(candidates[i].id, Balance(outstanding, candidates[i]))
  {
    seq(|candidates|, i requires 0 <= i < |candidates| => Item(candidates[i].id, Balance(outstanding, candidates[i])))
  }

  predicate NearMiss(inv: OpenInvoice, outstanding: map<string, Money>, amount: Money, feeTolerance: Money) {
    feeTolerance > 0.0 && 0.0 < Balance(outstanding, inv) - amount <= feeTolerance
  }

  /** The balances of the first `n` candidates, added up. */
  ghost function Before(candidates: seq<OpenInvoice>, outstanding: map<string, Money>, n: nat): Money
    requires n <= |candidates|
  {
    if n == 0 then 0.0 else Before(candidates, outstanding, n - 1) + Balance(outstanding, candidates[n - 1])
  }

  function Min(a: Money, b: Money): Money { if a < b then a else b }

  /** Oldest first: each candidate takes what the ones before it left, and none is skipped. */
  ghost predicate FirstDueFirstServed(
    candidates: seq<OpenInvoice>, outstanding: map<string, Money>, amount: Money,
    allocs: seq<Allocation>, remaining: Money)
  {
    && |allocs| <= |candidates|
    && (forall i {:trigger allocs[i]} :: 0 <= i < |allocs| ==>
          allocs[i] == Allocation(
            candidates[i].id,
            Min(Balance(outstanding, candidates[i]), amount - Before(candidates, outstanding, i)), 0.0, Partial))
    && (allocs != [] ==> Before(candidates, outstanding, |allocs| - 1) < amount)
    && (|allocs| < |candidates| ==> amount <= Before(candidates, outstanding, |allocs|))
    && remaining == if amount <= Before(candidates, outstanding, |allocs|) then 0.0
                    else amount - Before(candidates, outstanding, |allocs|)
  }

  ghost predicate ExactlyOneNear(
    candidates: seq<OpenInvoice>, outstanding: map<string, Money>, amount: Money, feeTolerance: Money, k: nat)
  {
    && feeTolerance > 0.0 && k < |candidates|
    && 0.0 < Balance(outstanding, candidates[k]) - amount <= feeTolerance
    && forall i :: 0 <= i < |candidates| && 0.0 < Balance(outstanding, candidates[i]) - amount <= feeTolerance ==>
         i == k
  }

  /** The listed invoices are cleared, one line each. */
  ghost predicate ClearedInFull(ids: seq<string>, outstanding: map<string, Money>, allocs: seq<Allocation>) {
    && |allocs| == |ids|
    && forall i :: 0 <= i < |allocs| ==>
         ids[i] in outstanding && allocs[i] == Allocation(ids[i], outstanding[ids[i]], 0.0, Aggregate)
  }

  ghost predicate IsAggregate(
    items: seq<Item>, outstanding: map<string, Money>, amount: Money, allocs: seq<Allocation>)
  {
    exists pick: set<nat> ::
      SumOf(items, pick) == amount && ClearedInFull(IdsOf(items, pick), outstanding, allocs)
  }

  /** The combination the search has recorded for the amount. */
  ghost function Recorded(items: seq<Item>, amount: Money): seq<string> {
    var found := Lookup(Table(items, amount), amount);
    if found.Some? then found.value else []
  }

  ghost predicate HasExact(candidates: seq<OpenInvoice>, outstanding: map<string, Money>, amount: Money) {
    exists i :: 0 <= i < |candidates| && Balance(outstanding, candidates[i]) == amount
  }

  /** Which rule applies to a deposit, and what it allocates: the surest rule that fits wins. */
  ghost predicate Allocated(
    candidates: seq<OpenInvoice>, outstanding: map<string, Money>, amount: Money, feeTolerance: Money,
    allocs: seq<Allocation>, remaining: Money)
  {
    var items := ToItems(candidates, outstanding);
    if HasExact(candidates, outstanding, amount) then
      exists k :: 0 <= k < |candidates| && Balance(outstanding, candidates[k]) == amount &&
        (forall i :: 0 <= i < k ==> Balance(outstanding, candidates[i]) != amount) &&
        allocs == [Allocation(candidates[k].id, amount, 0.0, Exact)] && remaining == 0.0
    else if |candidates| <= 24 && Reaches(items, amount) then
      && IsAggregate(items, outstanding, amount, allocs) && remaining == 0.0
      && ClearedInFull(Recorded(items, amount), outstanding, allocs)
    else if exists k: nat :: ExactlyOneNear(candidates, outstanding, amount, feeTolerance, k) then
      exists k: nat :: ExactlyOneNear(candidates, outstanding, amount, feeTolerance, k) &&
        allocs == [Allocation(candidates[k].id, amount, Balance(outstanding, candidates[k]) - amount, FeeAdjusted)] &&
        remaining == 0.0
    else
      FirstDueFirstServed(candidates, outstanding, amount, allocs, remaining)
  }

  /** The four rules, in the order they are tried. */
  method Allocate(
    amount: Money, candidates: seq<OpenInvoice>, outstanding: map<string, Money>, feeTolerance: Money)
    returns (allocs: seq<Allocation>, remaining: Money)
    requires amount > 0.0
    requires Distinct(InvoiceIds(candidates))
    requires forall i :: 0 <= i < |candidates| ==>
      candidates[i].id in outstanding && outstanding[candidates[i].id] > 0.0
    ensures Allocated(candidates, outstanding, amount, feeTolerance, allocs, remaining)
  {
    hide FirstDueFirstServed, IsAggregate, ClearedInFull, Table, Lookup;
    var exact := FirstIndex(candidates, inv => Balance(outstanding, inv) == amount);
    if exact < |candidates| {
      return [Allocation(candidates[exact].id, amount, 0.0, Exact)], 0.0;
    }
    assert !HasExact(candidates, outstanding, amount);
    var items := ToItems(candidates, outstanding);
    SearchIsComplete(items, amount);
    var subset := FindSubset(amount, items, None);
    if subset.Some? {
      allocs := AllocateAggregate(amount, items, outstanding, subset.value);
      return allocs, 0.0;
    }
    var k := OnlyNear(candidates, outstanding, amount, feeTolerance);
    if k.Some? {
      var inv := candidates[k.value];
      return [Allocation(inv.id, amount, Balance(outstanding, inv) - amount, FeeAdjusted)], 0.0;
    }
    allocs, remaining := AllocateOldestFirst(amount, candidates, outstanding);
  }

  method AllocateAggregate(amount: Money, items: seq<Item>, outstanding: map<string, Money>, ids: seq<string>)
    returns (allocs: seq<Allocation>)
    requires forall i :: 0 <= i < |items| ==> items[i].id in outstanding
    requires forall i, j :: 0 <= i < j < |items| ==> items[i].id != items[j].id
    requires Covers(items, ids, amount)
    ensures ClearedInFull(ids, outstanding, allocs) && IsAggregate(items, outstanding, amount, allocs)
  {
    allocs := [];
    ghost var pick :| SumOf(items, pick) == amount && ids == IdsOf(items, pick);
    IdsAreDistinct(items, pick);
    for i := 0 to |ids|
      invariant |allocs| == i
      invariant forall j :: 0 <= j < i ==>
        ids[j] in outstanding && allocs[j] == Allocation(ids[j], outstanding[ids[j]], 0.0, Aggregate)
    {
      assert ids[i] in ids;
      allocs := allocs + [Allocation(ids[i], outstanding[ids[i]], 0.0, Aggregate)];
    }
  }

  /** The one candidate within the fee tolerance, if there is exactly one. */
  method OnlyNear(candidates: seq<OpenInvoice>, outstanding: map<string, Money>, amount: Money, feeTolerance: Money)
    returns (r: Option<nat>)
    ensures r.Some? ==> ExactlyOneNear(candidates, outstanding, amount, feeTolerance, r.value)
    ensures r.None? ==> forall k: nat :: !ExactlyOneNear(candidates, outstanding, amount, feeTolerance, k)
  {
    var near := (inv: OpenInvoice) => NearMiss(inv, outstanding, amount, feeTolerance);
    var k := FirstIndex(candidates, near);
    if k == |candidates| {
      return None;
    }
    var rest := candidates[k + 1..];
    var next := FirstIndex(rest, near);
    assert forall i :: k < i < |candidates| ==> candidates[i] == rest[i - k - 1];
    return if next == |rest| then Some(k) else None;
  }

  /** The position of the first element satisfying `p`, or the length of the list. */
  function FirstIndex<T>(s: seq<T>, p: T -> bool): (k: nat)
    ensures k <= |s|
    ensures k < |s| ==> p(s[k])
    ensures forall i :: 0 <= i < k ==> !p(s[i])
  {
    if s == [] || p(s[0]) then 0
    else
      var k := FirstIndex(s[1..], p);
      assert forall i :: 0 < i < |s| ==> s[i] == s[1..][i - 1];
      k + 1
  }

  method AllocateOldestFirst(amount: Money, candidates: seq<OpenInvoice>, outstanding: map<string, Money>)
    returns (allocs: seq<Allocation>, remaining: Money)
    requires amount > 0.0
    requires forall i :: 0 <= i < |candidates| ==>
      candidates[i].id in outstanding && outstanding[candidates[i].id] > 0.0
    ensures FirstDueFirstServed(candidates, outstanding, amount, allocs, remaining)
  {
    allocs, remaining := [], amount;
    for i := 0 to |candidates|
      invariant |allocs| == i && remaining >= 0.0
      invariant forall j {:trigger allocs[j]} :: 0 <= j < i ==>
        allocs[j] == Allocation(
          candidates[j].id,
          Min(Balance(outstanding, candidates[j]), amount - Before(candidates, outstanding, j)), 0.0, Partial)
      invariant i > 0 ==> Before(candidates, outstanding, i - 1) < amount
      invariant remaining == if amount <= Before(candidates, outstanding, i) then 0.0
                             else amount - Before(candidates, outstanding, i)
    {
      if remaining <= 0.0 {
        break;
      }
      var applied := Min(outstanding[candidates[i].id], remaining);
      allocs := allocs + [Allocation(candidates[i].id, applied, 0.0, Partial)];
      remaining := remaining - applied;
    }
  }

  // ----- What every rule guarantees about the money -----

  /** One allocation: a candidate, a positive amount, never more than its balance; a fee only within tolerance. */
  ghost predicate LineSound(
    candidates: seq<OpenInvoice>, outstanding: map<string, Money>, feeTolerance: Money, a: Allocation)
  {
    && a.invoiceId in InvoiceIds(candidates)
    && a.applied > 0.0
    && 0.0 <= a.feeAbsorbed
    && (a.feeAbsorbed > 0.0 ==> a.kind == FeeAdjusted && a.feeAbsorbed <= feeTolerance)
    && a.invoiceId in outstanding
    && ClearedOf(a) <= outstanding[a.invoiceId]
  }

  ghost predicate DistinctInvoices(allocs: seq<Allocation>) {
    forall i, j :: 0 <= i < j < |allocs| ==> allocs[i].invoiceId != allocs[j].invoiceId
  }

  /** Every candidate has been brought to zero. */
  ghost predicate ClearsAll(
    candidates: seq<OpenInvoice>, outstanding: map<string, Money>, allocs: seq<Allocation>)
  {
    && |allocs| == |candidates|
    && forall i :: 0 <= i < |candidates| ==>
         allocs[i].invoiceId == candidates[i].id && ClearedOf(allocs[i]) == Balance(outstanding, candidates[i])
  }

  /** Distinct candidates, sound lines, every yen of the deposit accounted for; something is left over only
      when every candidate has been cleared in full. */
  ghost predicate Accounted(
    candidates: seq<OpenInvoice>, outstanding: map<string, Money>, amount: Money, feeTolerance: Money,
    allocs: seq<Allocation>, remaining: Money)
  {
    && DistinctInvoices(allocs)
    && (forall i :: 0 <= i < |allocs| ==> LineSound(candidates, outstanding, feeTolerance, allocs[i]))
    && Total(allocs, AppliedOf) + remaining == amount
    && remaining >= 0.0
    && (candidates != [] ==> allocs != [])
    && (remaining > 0.0 ==> ClearsAll(candidates, outstanding, allocs))
  }

  ghost predicate AllOpen(candidates: seq<OpenInvoice>, outstanding: map<string, Money>) {
    forall i :: 0 <= i < |candidates| ==>
      candidates[i].id in outstanding && outstanding[candidates[i].id] > 0.0
  }

  ghost predicate Ready(candidates: seq<OpenInvoice>, outstanding: map<string, Money>) {
    Distinct(InvoiceIds(candidates)) && AllOpen(candidates, outstanding)
  }

  lemma AllocationIsAccounted(
    candidates: seq<OpenInvoice>, outstanding: map<string, Money>, amount: Money, feeTolerance: Money,
    allocs: seq<Allocation>, remaining: Money)
    requires amount > 0.0 && Ready(candidates, outstanding)
    requires Allocated(candidates, outstanding, amount, feeTolerance, allocs, remaining)
    ensures Accounted(candidates, outstanding, amount, feeTolerance, allocs, remaining)
  {
    var items := ToItems(candidates, outstanding);
    if HasExact(candidates, outstanding, amount) {
      var k :| 0 <= k < |candidates| && Balance(outstanding, candidates[k]) == amount &&
               allocs == [Allocation(candidates[k].id, amount, 0.0, Exact)];
      SingleAccounted(candidates, outstanding, amount, feeTolerance, allocs, k);
    } else if |candidates| <= MAX_SUBSET_CANDIDATES && Reaches(items, amount) {
      AggregateAccounted(candidates, outstanding, amount, feeTolerance, allocs);
    } else if exists k: nat :: ExactlyOneNear(candidates, outstanding, amount, feeTolerance, k) {
      var k: nat :| ExactlyOneNear(candidates, outstanding, amount, feeTolerance, k) &&
        allocs == [Allocation(candidates[k].id, amount, Balance(outstanding, candidates[k]) - amount, FeeAdjusted)];
      SingleAccounted(candidates, outstanding, amount, feeTolerance, allocs, k);
    } else {
      OldestFirstAccounted(candidates, outstanding, amount, feeTolerance, allocs, remaining);
    }
  }

  lemma SingleAccounted(
    candidates: seq<OpenInvoice>, outstanding: map<string, Money>, amount: Money, feeTolerance: Money,
    allocs: seq<Allocation>, k: nat)
    requires amount > 0.0 && Ready(candidates, outstanding)
    requires |allocs| == 1 && allocs[0].applied == amount && 0.0 <= allocs[0].feeAbsorbed
    requires allocs[0].feeAbsorbed > 0.0 ==> allocs[0].kind == FeeAdjusted && allocs[0].feeAbsorbed <= feeTolerance
    requires k < |candidates| && candidates[k].id == allocs[0].invoiceId
    requires ClearedOf(allocs[0]) == Balance(outstanding, candidates[k])
    ensures Accounted(candidates, outstanding, amount, feeTolerance, allocs, 0.0)
  {
    assert InvoiceIds(candidates)[k] == allocs[0].invoiceId;
    assert allocs[..0] == [];
    assert Total(allocs, AppliedOf) == Total([], AppliedOf) + AppliedOf(allocs[0]);
  }

  lemma {:induction false} AggregateTotal(
    items: seq<Item>, outstanding: map<string, Money>, pick: set<nat>, allocs: seq<Allocation>)
    requires forall i :: 0 <= i < |items| ==> items[i].id in outstanding && items[i].amount == outstanding[items[i].id]
    requires |allocs| == |IdsOf(items, pick)|
    requires forall i :: 0 <= i < |allocs| ==>
      allocs[i].invoiceId == IdsOf(items, pick)[i] && allocs[i].invoiceId in outstanding &&
      allocs[i].applied == outstanding[allocs[i].invoiceId]
    ensures Total(allocs, AppliedOf) == SumOf(items, pick)
  {
    if items != [] {
      var n := |items| - 1;
      var ids := IdsOf(items[..n], pick);
      if n in pick {
        assert IdsOf(items, pick) == ids + [items[n].id];
        assert allocs[..|ids|] + [allocs[|ids|]] == allocs;
        assert allocs[|ids|].invoiceId == items[n].id;
        AggregateTotal(items[..n], outstanding, pick, allocs[..|ids|]);
      } else {
        assert IdsOf(items, pick) == ids;
        AggregateTotal(items[..n], outstanding, pick, allocs);
      }
    }
  }

  lemma AggregateAccounted(
    candidates: seq<OpenInvoice>, outstanding: map<string, Money>, amount: Money, feeTolerance: Money,
    allocs: seq<Allocation>)
    requires amount > 0.0 && Ready(candidates, outstanding)
    requires IsAggregate(ToItems(candidates, outstanding), outstanding, amount, allocs)
    ensures Accounted(candidates, outstanding, amount, feeTolerance, allocs, 0.0)
  {
    var items := ToItems(candidates, outstanding);
    var pick: set<nat> :|
      SumOf(items, pick) == amount && ClearedInFull(IdsOf(items, pick), outstanding, allocs);
    forall i, j | 0 <= i < j < |items|
      ensures items[i].id != items[j].id
    {
      assert InvoiceIds(candidates)[i] != InvoiceIds(candidates)[j];
    }
    IdsAreDistinct(items, pick);
    AggregateTotal(items, outstanding, pick, allocs);
    var ids := IdsOf(items, pick);
    forall i | 0 <= i < |allocs|
      ensures LineSound(candidates, outstanding, feeTolerance, allocs[i])
    {
      assert ids[i] in ids;
      var k :| 0 <= k < |items| && items[k].id == ids[i];
      assert InvoiceIds(candidates)[k] == ids[i];
    }
  }

  lemma {:induction false} BeforeMonotone(
    candidates: seq<OpenInvoice>, outstanding: map<string, Money>, m: nat, n: nat)
    requires m <= n <= |candidates| && AllOpen(candidates, outstanding)
    ensures Before(candidates, outstanding, m) <= Before(candidates, outstanding, n)
  {
    if m < n {
      BeforeMonotone(candidates, outstanding, m, n - 1);
    }
  }

  lemma {:induction false} OldestFirstTotal(
    candidates: seq<OpenInvoice>, outstanding: map<string, Money>, amount: Money, allocs: seq<Allocation>, n: nat)
    requires amount > 0.0 && n <= |allocs| <= |candidates| && AllOpen(candidates, outstanding)
    requires forall i {:trigger allocs[i]} :: 0 <= i < |allocs| ==>
      allocs[i].applied == Min(Balance(outstanding, candidates[i]), amount - Before(candidates, outstanding, i))
    requires allocs != [] ==> Before(candidates, outstanding, |allocs| - 1) < amount
    ensures Total(allocs[..n], AppliedOf) == Min(amount, Before(candidates, outstanding, n))
  {
    if n > 0 {
      OldestFirstTotal(candidates, outstanding, amount, allocs, n - 1);
      TotalPrefix(allocs, n - 1, AppliedOf);
      BeforeMonotone(candidates, outstanding, n - 1, |allocs| - 1);
    }
  }

  lemma OldestFirstShare(
    candidates: seq<OpenInvoice>, outstanding: map<string, Money>, amount: Money, feeTolerance: Money,
    allocs: seq<Allocation>, remaining: Money, i: nat)
    requires amount > 0.0 && AllOpen(candidates, outstanding)
    requires FirstDueFirstServed(candidates, outstanding, amount, allocs, remaining) && i < |allocs|
    ensures allocs[i].invoiceId == candidates[i].id
    ensures LineSound(candidates, outstanding, feeTolerance, allocs[i])
    ensures remaining > 0.0 ==> ClearedOf(allocs[i]) == Balance(outstanding, candidates[i])
  {
    BeforeMonotone(candidates, outstanding, i, |allocs| - 1);
    BeforeMonotone(candidates, outstanding, i + 1, |allocs|);
    assert InvoiceIds(candidates)[i] == candidates[i].id;
  }

  /** A partial allocation comes from the oldest-first rule. */
  lemma PartialIsOldestFirst(
    candidates: seq<OpenInvoice>, outstanding: map<string, Money>, amount: Money, feeTolerance: Money,
    allocs: seq<Allocation>, remaining: Money, k: nat)
    requires amount > 0.0 && Ready(candidates, outstanding)
    requires Allocated(candidates, outstanding, amount, feeTolerance, allocs, remaining)
    requires k < |allocs| && allocs[k].kind == Partial
    ensures AllOpen(candidates, outstanding) && DistinctInvoices(allocs)
    ensures FirstDueFirstServed(candidates, outstanding, amount, allocs, remaining)
    ensures k < |candidates| && allocs[k].invoiceId == candidates[k].id
  {
    AllocationIsAccounted(candidates, outstanding, amount, feeTolerance, allocs, remaining);
  }

  /** Whoever is served before somebody else has been cleared. */
  lemma EarlierIsCleared(
    candidates: seq<OpenInvoice>, outstanding: map<string, Money>, amount: Money,
    allocs: seq<Allocation>, remaining: Money, i: nat)
    requires amount > 0.0 && AllOpen(candidates, outstanding)
    requires FirstDueFirstServed(candidates, outstanding, amount, allocs, remaining) && i + 1 < |allocs|
    ensures allocs[i].invoiceId == candidates[i].id
    ensures ClearedOf(allocs[i]) == Balance(outstanding, candidates[i])
  {
    BeforeMonotone(candidates, outstanding, i + 1, |allocs| - 1);
  }

  /** The order of candidates goes one way only. */
  lemma OlderOnlyOneWay(a: OpenInvoice, b: OpenInvoice)
    requires OlderFirst(a, b) && OlderFirst(b, a)
    ensures a.id == b.id
  {
    TextTotalOrder(a.id, b.id);
  }

  lemma SameInvoice(invoices: seq<OpenInvoice>, a: OpenInvoice, b: OpenInvoice)
    requires Distinct(InvoiceIds(invoices)) && a in invoices && b in invoices && a.id == b.id
    ensures a == b
  {
    var m :| 0 <= m < |invoices| && invoices[m] == a;
    var n :| 0 <= n < |invoices| && invoices[n] == b;
    assert InvoiceIds(invoices)[m] == InvoiceIds(invoices)[n];
  }

  lemma OldestFirstLines(
    candidates: seq<OpenInvoice>, outstanding: map<string, Money>, amount: Money, feeTolerance: Money,
    allocs: seq<Allocation>, remaining: Money)
    requires amount > 0.0 && Ready(candidates, outstanding)
    requires FirstDueFirstServed(candidates, outstanding, amount, allocs, remaining)
    ensures DistinctInvoices(allocs)
    ensures forall i :: 0 <= i < |allocs| ==> LineSound(candidates, outstanding, feeTolerance, allocs[i])
  {
    forall i | 0 <= i < |allocs|
      ensures LineSound(candidates, outstanding, feeTolerance, allocs[i])
      ensures allocs[i].invoiceId == InvoiceIds(candidates)[i]
    {
      OldestFirstShare(candidates, outstanding, amount, feeTolerance, allocs, remaining, i);
    }
  }

  lemma OldestFirstAccounted(
    candidates: seq<OpenInvoice>, outstanding: map<string, Money>, amount: Money, feeTolerance: Money,
    allocs: seq<Allocation>, remaining: Money)
    requires amount > 0.0 && Ready(candidates, outstanding)
    requires FirstDueFirstServed(candidates, outstanding, amount, allocs, remaining)
    ensures Accounted(candidates, outstanding, amount, feeTolerance, allocs, remaining)
  {
    OldestFirstTotal(candidates, outstanding, amount, allocs, |allocs|);
    assert allocs[..|allocs|] == allocs;
    OldestFirstLines(candidates, outstanding, amount, feeTolerance, allocs, remaining);
    if remaining > 0.0 {
      forall i | 0 <= i < |candidates|
        ensures allocs[i].invoiceId == candidates[i].id
        ensures ClearedOf(allocs[i]) == Balance(outstanding, candidates[i])
      {
        OldestFirstShare(candidates, outstanding, amount, feeTolerance, allocs, remaining, i);
      }
    }
  }
}
