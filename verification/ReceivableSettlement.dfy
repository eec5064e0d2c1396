/** The whole run over a list of deposits: balances carried from one deposit to the next, and conservation. */
module ReceivableSettlement {
  import opened Wrappers
  import opened Sums
  import opened Sorting
  import opened ReceivableMatching

  function StatusOf(allocs: seq<Allocation>, remaining: Money, after: map<string, Money>): Status {
    if allocs == [] then Unmatched
    else if remaining > 0.0 then Advance
    else if exists a :: a in allocs && a.invoiceId in after && after[a.invoiceId] > 0.0 then PartlySettled
    else Settled
  }

  /** What one deposit does when the books already hold `before`. */
  ghost predicate Step(
    invoices: seq<OpenInvoice>, naming: Naming, feeTolerance: Money, before: seq<Allocation>,
    d: Deposit, r: DepositResult)
  {
    var outstanding := Balances(invoices, before);
    var candidates := Candidates(d, invoices, outstanding, naming);
    exists remaining: Money ::
      && Allocated(candidates, outstanding, d.amount, feeTolerance, r.allocations, remaining)
      && r == DepositResult(
           d.id, d.amount, StatusOf(r.allocations, remaining, Balances(invoices, before + r.allocations)),
           r.allocations, Total(r.allocations, AppliedOf), if r.allocations == [] then 0.0 else remaining)
  }

  /** The results of a run: every deposit takes its step on the books its predecessors left. */
  ghost predicate IsRun(
    deposits: seq<Deposit>, invoices: seq<OpenInvoice>, naming: Naming, feeTolerance: Money,
    results: seq<DepositResult>)
  {
    && |results| <= |deposits|
    && forall k :: 0 <= k < |results| ==>
         Step(invoices, naming, feeTolerance, Ledger(results[..k]), deposits[k], results[k])
  }

  ghost predicate Admissible(deposits: seq<Deposit>, invoices: seq<OpenInvoice>) {
    && Distinct(InvoiceIds(invoices))
    && (forall k :: 0 <= k < |deposits| ==> deposits[k].amount > 0.0)
    && forall k :: 0 <= k < |invoices| ==> invoices[k].amount > 0.0
  }

  function DepositAmount(d: Deposit): Money { d.amount }
  function InvoiceAmount(inv: OpenInvoice): Money { inv.amount }
  function ResultApplied(r: DepositResult): Money { r.applied }
  function ResultAdvance(r: DepositResult): Money { r.advance }
  function ResultUnmatched(r: DepositResult): Money { if r.status == Unmatched then r.amount else 0.0 }
  function BalanceOutstanding(b: InvoiceBalance): Money { b.outstanding }

  ghost predicate NeverNegative(m: map<string, Money>) {
    forall id :: id in m ==> m[id] >= 0.0
  }

  // ----- Each step: the money of one deposit, and the balances it leaves -----

  /** The candidates are ready for allocation whenever no balance is negative. */
  lemma CandidatesReady(
    invoices: seq<OpenInvoice>, naming: Naming, before: seq<Allocation>, d: Deposit)
    requires Distinct(InvoiceIds(invoices))
    ensures
      var outstanding := Balances(invoices, before);
      Ready(Candidates(d, invoices, outstanding, naming), outstanding)
  {
    var outstanding := Balances(invoices, before);
    var candidates := Candidates(d, invoices, outstanding, naming);
    CandidatesAre(d, invoices, outstanding, naming);
    forall i | 0 <= i < |candidates|
      ensures candidates[i].id in outstanding && outstanding[candidates[i].id] > 0.0
    {
      assert candidates[i] in candidates;
    }
  }

  /** Booking allocations to distinct invoices takes each one's amount off its own balance only. */
  lemma {:induction false} BalancesAfter(
    invoices: seq<OpenInvoice>, before: seq<Allocation>, allocs: seq<Allocation>, id: string)
    requires id in IdSet(invoices) && DistinctInvoices(allocs)
    ensures id in Balances(invoices, before + allocs)
    ensures
      var old', new' := Balances(invoices, before)[id], Balances(invoices, before + allocs)[id];
      && ((forall i :: 0 <= i < |allocs| ==> allocs[i].invoiceId != id) ==> new' == old')
      && (forall i :: 0 <= i < |allocs| && allocs[i].invoiceId == id ==> new' == old' - ClearedOf(allocs[i]))
  {
    if allocs == [] {
      assert before + allocs == before;
    } else {
      var n := |allocs| - 1;
      var init, last := allocs[..n], allocs[n];
      assert before + allocs == (before + init) + [last];
      assert forall i :: 0 <= i < n ==> init[i] == allocs[i];
      BalancesAfter(invoices, before, init, id);
      LedgerSnoc(before + init, last, id);
    }
  }

  /** One step neither loses nor creates money, and no balance goes negative. */
  lemma StepConserves(
    invoices: seq<OpenInvoice>, naming: Naming, feeTolerance: Money, before: seq<Allocation>,
    d: Deposit, r: DepositResult)
    requires Distinct(InvoiceIds(invoices)) && d.amount > 0.0
    requires NeverNegative(Balances(invoices, before))
    requires Step(invoices, naming, feeTolerance, before, d, r)
    ensures NeverNegative(Balances(invoices, before + r.allocations))
    ensures r.amount == d.amount == ResultApplied(r) + ResultAdvance(r) + ResultUnmatched(r)
    ensures r.advance >= 0.0
    ensures r.status == Unmatched <==> r.allocations == []
    ensures r.status == Unmatched ==> r.applied == 0.0 && r.advance == 0.0
    ensures DistinctInvoices(r.allocations)
    ensures forall i :: 0 <= i < |r.allocations| ==>
      LineSound(invoices, Balances(invoices, before), feeTolerance, r.allocations[i])
  {
    hide Balances, Candidates, Allocated, LineSound, NeverNegative;
    var outstanding := Balances(invoices, before);
    var candidates := Candidates(d, invoices, outstanding, naming);
    CandidatesReady(invoices, naming, before, d);
    CandidatesAre(d, invoices, outstanding, naming);
    var remaining: Money :|
      && Allocated(candidates, outstanding, d.amount, feeTolerance, r.allocations, remaining)
      && r == DepositResult(
           d.id, d.amount, StatusOf(r.allocations, remaining, Balances(invoices, before + r.allocations)),
           r.allocations, Total(r.allocations, AppliedOf), if r.allocations == [] then 0.0 else remaining);
    AllocationIsAccounted(candidates, outstanding, d.amount, feeTolerance, r.allocations, remaining);
    forall i | 0 <= i < |r.allocations|
      ensures LineSound(invoices, outstanding, feeTolerance, r.allocations[i])
    {
      CandidateIsInvoice(candidates, invoices, outstanding, feeTolerance, r.allocations[i]);
    }
    BooksStayNonNegative(invoices, feeTolerance, before, r.allocations);
  }

  /** The reported status says where the money went. */
  lemma StatusMeans(
    invoices: seq<OpenInvoice>, naming: Naming, feeTolerance: Money, before: seq<Allocation>,
    d: Deposit, r: DepositResult)
    requires Distinct(InvoiceIds(invoices)) && d.amount > 0.0
    requires NeverNegative(Balances(invoices, before))
    requires Step(invoices, naming, feeTolerance, before, d, r)
    ensures r.status == Advance <==> r.advance > 0.0
    ensures
      var after := Balances(invoices, before + r.allocations);
      && (forall a :: a in r.allocations ==> a.invoiceId in after)
      && (r.status == Settled ==> r.allocations != [] && forall a :: a in r.allocations ==> after[a.invoiceId] == 0.0)
      && (r.status == PartlySettled ==> exists a :: a in r.allocations && after[a.invoiceId] > 0.0)
  {
    hide Candidates, Allocated;
    StepConserves(invoices, naming, feeTolerance, before, d, r);
    forall a | a in r.allocations
      ensures a.invoiceId in IdSet(invoices)
    {
      var i :| 0 <= i < |r.allocations| && r.allocations[i] == a;
      assert LineSound(invoices, Balances(invoices, before), feeTolerance, r.allocations[i]);
    }
  }

  lemma CandidateIsInvoice(
    candidates: seq<OpenInvoice>, invoices: seq<OpenInvoice>, outstanding: map<string, Money>, feeTolerance: Money,
    a: Allocation)
    requires forall inv :: inv in candidates ==> inv in invoices
    requires LineSound(candidates, outstanding, feeTolerance, a)
    ensures LineSound(invoices, outstanding, feeTolerance, a)
  {
    var k :| 0 <= k < |candidates| && InvoiceIds(candidates)[k] == a.invoiceId;
    assert candidates[k] in candidates;
    var j :| 0 <= j < |invoices| && invoices[j] == candidates[k];
    assert InvoiceIds(invoices)[j] == a.invoiceId;
  }

  lemma BooksStayNonNegative(
    invoices: seq<OpenInvoice>, feeTolerance: Money, before: seq<Allocation>, allocs: seq<Allocation>)
    requires NeverNegative(Balances(invoices, before)) && DistinctInvoices(allocs)
    requires forall i :: 0 <= i < |allocs| ==>
      LineSound(invoices, Balances(invoices, before), feeTolerance, allocs[i])
    ensures NeverNegative(Balances(invoices, before + allocs))
  {
    forall id | id in IdSet(invoices)
      ensures Balances(invoices, before + allocs)[id] >= 0.0
    {
      BalancesAfter(invoices, before, allocs, id);
      assert Balances(invoices, before)[id] >= 0.0;
      if i :| 0 <= i < |allocs| && allocs[i].invoiceId == id {
        assert LineSound(invoices, Balances(invoices, before), feeTolerance, allocs[i]);
      }
    }
  }

  lemma AdvanceClearsCandidates(
    invoices: seq<OpenInvoice>, naming: Naming, feeTolerance: Money, before: seq<Allocation>,
    d: Deposit, r: DepositResult)
    requires Distinct(InvoiceIds(invoices)) && d.amount > 0.0
    requires Step(invoices, naming, feeTolerance, before, d, r) && r.advance > 0.0
    ensures DistinctInvoices(r.allocations)
    ensures
      var outstanding := Balances(invoices, before);
      ClearsAll(Candidates(d, invoices, outstanding, naming), outstanding, r.allocations)
  {
    var outstanding := Balances(invoices, before);
    var candidates := Candidates(d, invoices, outstanding, naming);
    CandidatesReady(invoices, naming, before, d);
    var remaining: Money :|
      && Allocated(candidates, outstanding, d.amount, feeTolerance, r.allocations, remaining)
      && r.advance == if r.allocations == [] then 0.0 else remaining;
    AllocationIsAccounted(candidates, outstanding, d.amount, feeTolerance, r.allocations, remaining);
  }

  /** Money is booked as an advance only once every open invoice whose name matches has been brought to zero. */
  lemma AdvanceOnlyWhenAllCleared(
    invoices: seq<OpenInvoice>, naming: Naming, feeTolerance: Money, before: seq<Allocation>,
    d: Deposit, r: DepositResult, inv: OpenInvoice)
    requires Distinct(InvoiceIds(invoices)) && d.amount > 0.0
    requires NeverNegative(Balances(invoices, before))
    requires Step(invoices, naming, feeTolerance, before, d, r)
    requires r.advance > 0.0 && inv in invoices && naming.Matches(d, inv)
    ensures inv.id in Balances(invoices, before + r.allocations)
    ensures Balances(invoices, before + r.allocations)[inv.id] == 0.0
  {
    hide Step, Allocated, Candidates, OlderFirst;
    var outstanding := Balances(invoices, before);
    var candidates := Candidates(d, invoices, outstanding, naming);
    AdvanceClearsCandidates(invoices, naming, feeTolerance, before, d, r);
    CandidatesAre(d, invoices, outstanding, naming);
    assert inv.id in IdSet(invoices);
    BalancesAfter(invoices, before, r.allocations, inv.id);
    if outstanding[inv.id] > 0.0 {
      assert inv in candidates;
      var i :| 0 <= i < |candidates| && candidates[i] == inv;
      assert r.allocations[i].invoiceId == inv.id;
    } else {
      forall i | 0 <= i < |r.allocations|
        ensures r.allocations[i].invoiceId != inv.id
      {
        assert candidates[i] in candidates;
      }
    }
  }

  /** Money that is not enough for everybody goes to the oldest invoice first: when a deposit is put on account and
      pays something to an invoice, every open invoice of a matching name that is due earlier, or on the same date with
      a smaller identifier, is at zero afterwards. */
  lemma PartialPaysTheOldest(
    invoices: seq<OpenInvoice>, naming: Naming, feeTolerance: Money, before: seq<Allocation>,
    d: Deposit, r: DepositResult, k: nat, paid: OpenInvoice, older: OpenInvoice)
    requires Distinct(InvoiceIds(invoices)) && d.amount > 0.0
    requires Step(invoices, naming, feeTolerance, before, d, r)
    requires k < |r.allocations| && r.allocations[k].kind == Partial && r.allocations[k].invoiceId == paid.id
    requires paid in invoices && older in invoices && older.id != paid.id
    requires older.dueDate < paid.dueDate || (older.dueDate == paid.dueDate && TextLeq(older.id, paid.id))
    requires naming.similarity(d.remitter, older.customer) >= naming.threshold
    requires older.id in Balances(invoices, before) && Balances(invoices, before)[older.id] > 0.0
    ensures older.id in Balances(invoices, before + r.allocations)
    ensures Balances(invoices, before + r.allocations)[older.id] == 0.0
  {
    hide Step, Allocated, Candidates, Balances;
    var outstanding := Balances(invoices, before);
    var cs := Candidates(d, invoices, outstanding, naming);
    CandidatesAre(d, invoices, outstanding, naming);
    CandidatesReady(invoices, naming, before, d);
    assert older in cs;
    var i :| 0 <= i < |cs| && cs[i] == older;
    PartialInOrder(invoices, naming, feeTolerance, before, d, r, k, i, paid);
    BalancesAfter(invoices, before, r.allocations, older.id);
  }

  /** The step lemma behind it: the allocation to the older candidate comes before and clears it. */
  lemma PartialInOrder(
    invoices: seq<OpenInvoice>, naming: Naming, feeTolerance: Money, before: seq<Allocation>,
    d: Deposit, r: DepositResult, k: nat, i: nat, paid: OpenInvoice)
    requires Distinct(InvoiceIds(invoices)) && d.amount > 0.0
    requires Step(invoices, naming, feeTolerance, before, d, r)
    requires k < |r.allocations| && r.allocations[k].kind == Partial && r.allocations[k].invoiceId == paid.id
    requires paid in invoices
    requires var cs := Candidates(d, invoices, Balances(invoices, before), naming);
      i < |cs| && cs[i].id != paid.id && OlderFirst(cs[i], paid)
    ensures DistinctInvoices(r.allocations)
    ensures var cs := Candidates(d, invoices, Balances(invoices, before), naming);
      && i < |r.allocations| && r.allocations[i].invoiceId == cs[i].id
      && ClearedOf(r.allocations[i]) == Balance(Balances(invoices, before), cs[i])
  {
    hide Allocated, Candidates, Balances, FirstDueFirstServed, OlderFirst;
    var outstanding := Balances(invoices, before);
    var cs := Candidates(d, invoices, outstanding, naming);
    CandidatesAre(d, invoices, outstanding, naming);
    CandidatesReady(invoices, naming, before, d);
    var remaining: Money :| Allocated(cs, outstanding, d.amount, feeTolerance, r.allocations, remaining);
    PartialIsOldestFirst(cs, outstanding, d.amount, feeTolerance, r.allocations, remaining, k);
    assert cs[k] in cs;
    SameInvoice(invoices, cs[k], paid);
    if k <= i {
      if k < i {
        OlderOnlyOneWay(cs[i], cs[k]);
      }
      assert false;
    }
    EarlierIsCleared(cs, outstanding, d.amount, r.allocations, remaining, i);
  }

  // ----- Whole runs -----

  /** Before any deposit every invoice owes its full amount. */
  lemma StartOfRun(deposits: seq<Deposit>, invoices: seq<OpenInvoice>)
    requires Admissible(deposits, invoices)
    ensures NeverNegative(Balances(invoices, []))
    ensures forall inv :: inv in invoices ==>
      inv.id in Balances(invoices, []) && Balances(invoices, [])[inv.id] == inv.amount
  {
    forall inv | inv in invoices
      ensures AmountOf(invoices, inv.id) == inv.amount > 0.0
    {
      var k :| 0 <= k < |invoices| && invoices[k] == inv;
      AmountAt(invoices, k);
    }
  }

  /** No balance is ever negative, after any number of deposits. */
  lemma {:induction false} RunNeverNegative(
    deposits: seq<Deposit>, invoices: seq<OpenInvoice>, naming: Naming, feeTolerance: Money,
    results: seq<DepositResult>)
    requires Admissible(deposits, invoices) && IsRun(deposits, invoices, naming, feeTolerance, results)
    ensures NeverNegative(Balances(invoices, Ledger(results)))
  {
    if results == [] {
      StartOfRun(deposits, invoices);
    } else {
      var n := |results| - 1;
      var init := results[..n];
      PrefixIsRun(deposits, invoices, naming, feeTolerance, results, n);
      RunNeverNegative(deposits, invoices, naming, feeTolerance, init);
      StepConserves(invoices, naming, feeTolerance, Ledger(init), deposits[n], results[n]);
    }
  }

  lemma PrefixIsRun(
    deposits: seq<Deposit>, invoices: seq<OpenInvoice>, naming: Naming, feeTolerance: Money,
    results: seq<DepositResult>, n: nat)
    requires IsRun(deposits, invoices, naming, feeTolerance, results) && n <= |results|
    ensures IsRun(deposits, invoices, naming, feeTolerance, results[..n])
  {
    forall k | 0 <= k < n
      ensures Step(invoices, naming, feeTolerance, Ledger(results[..n][..k]), deposits[k], results[..n][k])
    {
      assert results[..n][..k] == results[..k];
    }
  }

  /** Deposits = applied + advance + unmatched, over the whole run. */
  lemma {:induction false} DepositsAreConserved(
    deposits: seq<Deposit>, invoices: seq<OpenInvoice>, naming: Naming, feeTolerance: Money,
    results: seq<DepositResult>)
    requires Admissible(deposits, invoices) && IsRun(deposits, invoices, naming, feeTolerance, results)
    ensures Total(deposits[..|results|], DepositAmount)
         == Total(results, ResultApplied) + Total(results, ResultAdvance) + Total(results, ResultUnmatched)
  {
    if results != [] {
      var n := |results| - 1;
      var init := results[..n];
      PrefixIsRun(deposits, invoices, naming, feeTolerance, results, n);
      DepositsAreConserved(deposits, invoices, naming, feeTolerance, init);
      RunNeverNegative(deposits, invoices, naming, feeTolerance, init);
      StepConserves(invoices, naming, feeTolerance, Ledger(init), deposits[n], results[n]);
      TotalPrefix(deposits, n, DepositAmount);
    }
  }

  /** Invoices = cleared + outstanding: booking an allocation moves its amount and nothing else. */
  lemma {:induction false} InvoicesAreConserved(invoices: seq<OpenInvoice>, allocs: seq<Allocation>)
    requires Distinct(InvoiceIds(invoices))
    requires forall i :: 0 <= i < |allocs| ==> allocs[i].invoiceId in InvoiceIds(invoices)
    ensures forall k :: k in InvoiceIds(invoices) ==> k in Balances(invoices, allocs)
    ensures Total(invoices, InvoiceAmount)
         == MapTotal(InvoiceIds(invoices), Balances(invoices, allocs)) + Total(allocs, ClearedOf)
  {
    AllHaveBalances(invoices, allocs);
    if allocs == [] {
      NothingCleared(invoices, |invoices|);
      assert invoices[..|invoices|] == invoices && InvoiceIds(invoices)[..|invoices|] == InvoiceIds(invoices);
    } else {
      var n := |allocs| - 1;
      assert allocs == allocs[..n] + [allocs[n]];
      InvoicesAreConserved(invoices, allocs[..n]);
      BalancesSnoc(invoices, allocs[..n], allocs[n]);
      var before := Balances(invoices, allocs[..n]);
      MapTotalUpdate(InvoiceIds(invoices), before, allocs[n].invoiceId,
                     before[allocs[n].invoiceId] - ClearedOf(allocs[n]));
    }
  }

  lemma AllHaveBalances(invoices: seq<OpenInvoice>, allocs: seq<Allocation>)
    ensures forall k :: k in InvoiceIds(invoices) ==> k in Balances(invoices, allocs)
  {
    forall k | k in InvoiceIds(invoices)
      ensures k in IdSet(invoices)
    {
      var i :| 0 <= i < |invoices| && InvoiceIds(invoices)[i] == k;
      assert invoices[i] in invoices;
    }
  }

  lemma {:induction false} NothingCleared(invoices: seq<OpenInvoice>, n: nat)
    requires Distinct(InvoiceIds(invoices)) && n <= |invoices|
    requires forall k :: k in InvoiceIds(invoices) ==> k in Balances(invoices, [])
    ensures MapTotal(InvoiceIds(invoices)[..n], Balances(invoices, [])) == Total(invoices[..n], InvoiceAmount)
  {
    if n > 0 {
      NothingCleared(invoices, n - 1);
      assert InvoiceIds(invoices)[..n][..n - 1] == InvoiceIds(invoices)[..n - 1];
      AmountAt(invoices, n - 1);
      TotalPrefix(invoices, n - 1, InvoiceAmount);
    }
  }

  // ----- The matcher -----

  function SettledIds(balances: seq<InvoiceBalance>): seq<string> {
    if balances == [] then []
    else
      var last := balances[|balances| - 1];
      SettledIds(balances[..|balances| - 1]) + if last.settled then [last.invoiceId] else []
  }

  function UnmatchedIds(results: seq<DepositResult>): seq<string> {
    if results == [] then []
    else
      var last := results[|results| - 1];
      UnmatchedIds(results[..|results| - 1]) + if last.status == Unmatched then [last.depositId] else []
  }

  /** The identifiers listed are those of the settled rows, in the order of the rows. */
  lemma {:induction false} SettledIdsAre(balances: seq<InvoiceBalance>)
    ensures forall id :: id in SettledIds(balances) <==> exists b :: b in balances && b.settled && b.invoiceId == id
    ensures forall i, j :: 0 <= i < j < |SettledIds(balances)| ==>
      RowsInOrder(balances, SettledIds(balances)[i], SettledIds(balances)[j])
  {
    if balances != [] {
      var n := |balances| - 1;
      var init, ids := balances[..n], SettledIds(balances[..n]);
      assert balances == init + [balances[n]];
      SettledIdsAre(init);
      forall i, j | 0 <= i < j < |SettledIds(balances)|
        ensures RowsInOrder(balances, SettledIds(balances)[i], SettledIds(balances)[j])
      {
        if j < |ids| {
          assert RowsInOrder(init, ids[i], ids[j]);
          var a, b :| 0 <= a < b < |init| && init[a].invoiceId == ids[i] && init[b].invoiceId == ids[j];
          assert balances[a] == init[a] && balances[b] == init[b];
        } else {
          assert ids[i] in ids;
          var row :| row in init && row.settled && row.invoiceId == ids[i];
          var a :| 0 <= a < n && init[a] == row;
          assert balances[a] == row && a < n;
        }
      }
    }
  }

  ghost predicate RowsInOrder(balances: seq<InvoiceBalance>, x: string, y: string) {
    exists a, b :: 0 <= a < b < |balances| && balances[a].invoiceId == x && balances[b].invoiceId == y
  }

  /** The identifiers listed are those of the unmatched deposits, in the order of the deposits. */
  lemma {:induction false} UnmatchedIdsAre(results: seq<DepositResult>)
    ensures forall id :: id in UnmatchedIds(results) <==>
      exists r :: r in results && r.status == Unmatched && r.depositId == id
    ensures forall i, j :: 0 <= i < j < |UnmatchedIds(results)| ==>
      ResultsInOrder(results, UnmatchedIds(results)[i], UnmatchedIds(results)[j])
  {
    if results != [] {
      var n := |results| - 1;
      var init, ids := results[..n], UnmatchedIds(results[..n]);
      assert results == init + [results[n]];
      UnmatchedIdsAre(init);
      forall i, j | 0 <= i < j < |UnmatchedIds(results)|
        ensures ResultsInOrder(results, UnmatchedIds(results)[i], UnmatchedIds(results)[j])
      {
        if j < |ids| {
          assert ResultsInOrder(init, ids[i], ids[j]);
          var a, b :| 0 <= a < b < |init| && init[a].depositId == ids[i] && init[b].depositId == ids[j];
          assert results[a] == init[a] && results[b] == init[b];
        } else {
          assert ids[i] in ids;
          var r :| r in init && r.status == Unmatched && r.depositId == ids[i];
          var a :| 0 <= a < n && init[a] == r;
          assert results[a] == r && a < n;
        }
      }
    }
  }

  ghost predicate ResultsInOrder(results: seq<DepositResult>, x: string, y: string) {
    exists a, b :: 0 <= a < b < |results| && results[a].depositId == x && results[b].depositId == y
  }

  /** What a match reports: a run over all deposits, the books it leaves, and their totals. */
  ghost predicate Reports(
    deposits: seq<Deposit>, invoices: seq<OpenInvoice>, naming: Naming, feeTolerance: Money, m: MatchResult)
  {
    && |m.deposits| == |deposits|
    && IsRun(deposits, invoices, naming, feeTolerance, m.deposits)
    && var ledger := Ledger(m.deposits);
    && |m.invoices| == |invoices|
    && (forall k :: 0 <= k < |invoices| ==>
          && invoices[k].id in Balances(invoices, ledger)
          && var owed := Balances(invoices, ledger)[invoices[k].id];
             m.invoices[k] == InvoiceBalance(
               invoices[k].id, invoices[k].amount, AppliedTo(ledger, invoices[k].id), owed, owed <= 0.0))
    && m.totalApplied == Total(m.deposits, ResultApplied)
    && m.totalAdvance == Total(m.deposits, ResultAdvance)
    && m.totalUnmatched == Total(m.deposits, ResultUnmatched)
    && m.totalOutstanding == Total(m.invoices, BalanceOutstanding)
    && m.settledInvoiceIds == SettledIds(m.invoices)
    && m.unmatchedDepositIds == UnmatchedIds(m.deposits)
  }

  /** What the reported figures add up to. */
  ghost predicate Conserves(
    deposits: seq<Deposit>, invoices: seq<OpenInvoice>, m: MatchResult)
  {
    var ledger := Ledger(m.deposits);
    && Total(deposits, DepositAmount) == m.totalApplied + m.totalAdvance + m.totalUnmatched
    && Total(invoices, InvoiceAmount) == m.totalOutstanding + Total(ledger, ClearedOf)
    && |m.invoices| == |invoices|
    && forall k :: 0 <= k < |invoices| ==>
         && invoices[k].amount == m.invoices[k].applied + FeesOn(ledger, invoices[k].id) + m.invoices[k].outstanding
         && m.invoices[k].outstanding >= 0.0
         && (m.invoices[k].settled <==> m.invoices[k].outstanding == 0.0)
  }

  /** Whatever the name similarity says, a match conserves money on both sides. */
  lemma MatchConserves(
    deposits: seq<Deposit>, invoices: seq<OpenInvoice>, naming: Naming, feeTolerance: Money, m: MatchResult)
    requires Admissible(deposits, invoices) && Reports(deposits, invoices, naming, feeTolerance, m)
    ensures Conserves(deposits, invoices, m)
  {
    hide IsRun, Balances;
    var ledger := Ledger(m.deposits);
    assert deposits[..|m.deposits|] == deposits;
    DepositsAreConserved(deposits, invoices, naming, feeTolerance, m.deposits);
    RunNeverNegative(deposits, invoices, naming, feeTolerance, m.deposits);
    LedgerNamesInvoices(deposits, invoices, naming, feeTolerance, m.deposits);
    InvoicesAreConserved(invoices, ledger);
    OutstandingTotal(invoices, ledger, m.invoices, |invoices|);
    assert m.invoices[..|invoices|] == m.invoices && InvoiceIds(invoices)[..|invoices|] == InvoiceIds(invoices);
    forall k | 0 <= k < |invoices|
      ensures invoices[k].amount == m.invoices[k].applied + FeesOn(ledger, invoices[k].id) + m.invoices[k].outstanding
      ensures m.invoices[k].outstanding >= 0.0
    {
      RowConserves(invoices, ledger, k);
    }
  }

  lemma RowConserves(invoices: seq<OpenInvoice>, ledger: seq<Allocation>, k: nat)
    requires Distinct(InvoiceIds(invoices)) && NeverNegative(Balances(invoices, ledger)) && k < |invoices|
    requires invoices[k].id in Balances(invoices, ledger)
    ensures
      var owed := Balances(invoices, ledger)[invoices[k].id];
      owed >= 0.0 && invoices[k].amount == AppliedTo(ledger, invoices[k].id) + FeesOn(ledger, invoices[k].id) + owed
  {
    AmountAt(invoices, k);
  }

  lemma {:induction false} LedgerNamesInvoices(
    deposits: seq<Deposit>, invoices: seq<OpenInvoice>, naming: Naming, feeTolerance: Money,
    results: seq<DepositResult>)
    requires Admissible(deposits, invoices) && IsRun(deposits, invoices, naming, feeTolerance, results)
    ensures forall i :: 0 <= i < |Ledger(results)| ==> Ledger(results)[i].invoiceId in InvoiceIds(invoices)
  {
    hide Balances, Step, NeverNegative;
    if results != [] {
      var n := |results| - 1;
      PrefixIsRun(deposits, invoices, naming, feeTolerance, results, n);
      LedgerNamesInvoices(deposits, invoices, naming, feeTolerance, results[..n]);
      RunNeverNegative(deposits, invoices, naming, feeTolerance, results[..n]);
      StepConserves(invoices, naming, feeTolerance, Ledger(results[..n]), deposits[n], results[n]);
      forall i | |Ledger(results[..n])| <= i < |Ledger(results)|
        ensures Ledger(results)[i].invoiceId in InvoiceIds(invoices)
      {
        var j := i - |Ledger(results[..n])|;
        assert Ledger(results)[i] == results[n].allocations[j];
        assert LineSound(invoices, Balances(invoices, Ledger(results[..n])), feeTolerance, results[n].allocations[j]);
      }
    }
  }

  lemma {:induction false} OutstandingTotal(
    invoices: seq<OpenInvoice>, ledger: seq<Allocation>, rows: seq<InvoiceBalance>, n: nat)
    requires n <= |invoices| == |rows|
    requires forall k :: k in InvoiceIds(invoices) ==> k in Balances(invoices, ledger)
    requires forall k :: 0 <= k < |rows| ==>
      invoices[k].id in Balances(invoices, ledger) && rows[k].outstanding == Balances(invoices, ledger)[invoices[k].id]
    ensures Total(rows[..n], BalanceOutstanding) == MapTotal(InvoiceIds(invoices)[..n], Balances(invoices, ledger))
  {
    if n > 0 {
      OutstandingTotal(invoices, ledger, rows, n - 1);
      TotalPrefix(rows, n - 1, BalanceOutstanding);
      assert InvoiceIds(invoices)[..n][..n - 1] == InvoiceIds(invoices)[..n - 1];
    }
  }

  /** How much each invoice has been paid, by identifier. */
  ghost function AppliedMap(invoices: seq<OpenInvoice>, ledger: seq<Allocation>): map<string, Money> {
    map id | id in IdSet(invoices) :: AppliedTo(ledger, id)
  }

  /** Book the allocations of one deposit. */
  method Book(
    invoices: seq<OpenInvoice>, ghost before: seq<Allocation>, allocs: seq<Allocation>,
    outstanding0: map<string, Money>, applied0: map<string, Money>)
    returns (outstanding: map<string, Money>, applied: map<string, Money>)
    requires outstanding0 == Balances(invoices, before) && applied0 == AppliedMap(invoices, before)
    requires forall i :: 0 <= i < |allocs| ==> allocs[i].invoiceId in IdSet(invoices)
    ensures outstanding == Balances(invoices, before + allocs)
    ensures applied == AppliedMap(invoices, before + allocs)
  {
    outstanding, applied := outstanding0, applied0;
    assert before + allocs[..0] == before;
    for i := 0 to |allocs|
      invariant outstanding == Balances(invoices, before + allocs[..i])
      invariant applied == AppliedMap(invoices, before + allocs[..i])
    {
      var a := allocs[i];
      assert before + allocs[..i + 1] == (before + allocs[..i]) + [a];
      BalancesSnoc(invoices, before + allocs[..i], a);
      AppliedSnoc(invoices, before + allocs[..i], a);
      outstanding := outstanding[a.invoiceId := outstanding[a.invoiceId] - (a.applied + a.feeAbsorbed)];
      applied := applied[a.invoiceId := applied[a.invoiceId] + a.applied];
    }
    assert allocs[..|allocs|] == allocs;
  }

  lemma AppliedSnoc(invoices: seq<OpenInvoice>, ledger: seq<Allocation>, a: Allocation)
    requires a.invoiceId in IdSet(invoices)
    ensures AppliedMap(invoices, ledger + [a])
         == AppliedMap(invoices, ledger)[a.invoiceId := AppliedMap(invoices, ledger)[a.invoiceId] + a.applied]
  {
    forall id | id in IdSet(invoices)
      ensures AppliedTo(ledger + [a], id) == AppliedTo(ledger, id) + if a.invoiceId == id then a.applied else 0.0
    {
      LedgerSnoc(ledger, a, id);
    }
  }

  method OpenBooks(invoices: seq<OpenInvoice>) returns (outstanding: map<string, Money>, applied: map<string, Money>)
    requires Distinct(InvoiceIds(invoices))
    ensures outstanding == Balances(invoices, []) && applied == AppliedMap(invoices, [])
  {
    outstanding, applied := map[], map[];
    for i := 0 to |invoices|
      invariant forall k :: 0 <= k < i ==>
        invoices[k].id in outstanding && outstanding[invoices[k].id] == invoices[k].amount
      invariant forall id :: id in outstanding ==> exists k :: 0 <= k < i && invoices[k].id == id
      invariant outstanding.Keys == applied.Keys
      invariant forall id :: id in applied ==> applied[id] == 0.0
    {
      forall k | 0 <= k < i ensures invoices[k].id != invoices[i].id {
        assert InvoiceIds(invoices)[k] != InvoiceIds(invoices)[i];
      }
      outstanding := outstanding[invoices[i].id := invoices[i].amount];
      applied := applied[invoices[i].id := 0.0];
    }
    forall k | 0 <= k < |invoices|
      ensures AmountOf(invoices, invoices[k].id) == invoices[k].amount
    {
      AmountAt(invoices, k);
    }
    assert outstanding.Keys == IdSet(invoices);
  }

  /** Match every deposit in turn. */
  method Match(deposits: seq<Deposit>, invoices: seq<OpenInvoice>, feeTolerance: Money, naming: Naming)
    returns (r: Result<MatchResult, MatchError>)
    ensures Validate(deposits, invoices, feeTolerance, naming).Some? ==>
      r == Err(Validate(deposits, invoices, feeTolerance, naming).value)
    ensures Validate(deposits, invoices, feeTolerance, naming).None? ==>
      r.Ok? && Reports(deposits, invoices, naming, feeTolerance, r.value) && Conserves(deposits, invoices, r.value)
  {
    var problem := Validate(deposits, invoices, feeTolerance, naming);
    if problem.Some? {
      return Err(problem.value);
    }
    hide Step, Candidates, Allocated, Conserves;
    assert Admissible(deposits, invoices);
    var outstanding, applied := OpenBooks(invoices);
    var results: seq<DepositResult> := [];
    StartOfRun(deposits, invoices);
    for i := 0 to |deposits|
      invariant |results| == i && IsRun(deposits, invoices, naming, feeTolerance, results)
      invariant outstanding == Balances(invoices, Ledger(results))
      invariant applied == AppliedMap(invoices, Ledger(results))
    {
      var d := deposits[i];
      ghost var before := Ledger(results);
      var candidates := Candidates(d, invoices, outstanding, naming);
      CandidatesReady(invoices, naming, before, d);
      var allocs, remaining := Allocate(d.amount, candidates, outstanding, feeTolerance);
      AllocatedNamesInvoices(invoices, naming, feeTolerance, before, d, allocs, remaining);
      outstanding, applied := Book(invoices, before, allocs, outstanding, applied);
      var result := DepositResult(
        d.id, d.amount, StatusOf(allocs, remaining, outstanding), allocs, Total(allocs, AppliedOf),
        if allocs == [] then 0.0 else remaining);
      StepTaken(invoices, naming, feeTolerance, before, d, result, remaining);
      RunSnoc(deposits, invoices, naming, feeTolerance, results, result);
      LedgerGrows(results, result);
      results := results + [result];
    }
    var rows := ReportBalances(invoices, Ledger(results), outstanding, applied);
    var report := MatchResult(
      results, rows, Total(results, ResultApplied), Total(results, ResultAdvance), Total(results, ResultUnmatched),
      Total(rows, BalanceOutstanding), SettledIds(rows), UnmatchedIds(results));
    MatchConserves(deposits, invoices, naming, feeTolerance, report);
    return Ok(report);
  }

  lemma StepTaken(
    invoices: seq<OpenInvoice>, naming: Naming, feeTolerance: Money, before: seq<Allocation>, d: Deposit,
    r: DepositResult, remaining: Money)
    requires
      var outstanding := Balances(invoices, before);
      Allocated(
        Candidates(d, invoices, outstanding, naming), outstanding, d.amount, feeTolerance, r.allocations, remaining)
    requires r == DepositResult(
      d.id, d.amount, StatusOf(r.allocations, remaining, Balances(invoices, before + r.allocations)), r.allocations,
      Total(r.allocations, AppliedOf), if r.allocations == [] then 0.0 else remaining)
    ensures Step(invoices, naming, feeTolerance, before, d, r)
  {
  }

  lemma AllocatedNamesInvoices(
    invoices: seq<OpenInvoice>, naming: Naming, feeTolerance: Money, before: seq<Allocation>,
    d: Deposit, allocs: seq<Allocation>, remaining: Money)
    requires Distinct(InvoiceIds(invoices)) && d.amount > 0.0
    requires
      var outstanding := Balances(invoices, before);
      Allocated(Candidates(d, invoices, outstanding, naming), outstanding, d.amount, feeTolerance, allocs, remaining)
    ensures forall i :: 0 <= i < |allocs| ==> allocs[i].invoiceId in IdSet(invoices)
  {
    var outstanding := Balances(invoices, before);
    CandidatesReady(invoices, naming, before, d);
    AllocationIsAccounted(
      Candidates(d, invoices, outstanding, naming), outstanding, d.amount, feeTolerance, allocs, remaining);
  }

  lemma RunSnoc(
    deposits: seq<Deposit>, invoices: seq<OpenInvoice>, naming: Naming, feeTolerance: Money,
    results: seq<DepositResult>, r: DepositResult)
    requires IsRun(deposits, invoices, naming, feeTolerance, results) && |results| < |deposits|
    requires Step(invoices, naming, feeTolerance, Ledger(results), deposits[|results|], r)
    ensures IsRun(deposits, invoices, naming, feeTolerance, results + [r])
  {
    hide Step;
    forall k | 0 <= k < |results| + 1
      ensures Step(invoices, naming, feeTolerance, Ledger((results + [r])[..k]), deposits[k], (results + [r])[k])
    {
      assert (results + [r])[..k] == results[..k];
      assert results[..|results|] == results;
    }
  }

  method ReportBalances(
    invoices: seq<OpenInvoice>, ghost ledger: seq<Allocation>,
    outstanding: map<string, Money>, applied: map<string, Money>)
    returns (rows: seq<InvoiceBalance>)
    requires outstanding == Balances(invoices, ledger) && applied == AppliedMap(invoices, ledger)
    ensures |rows| == |invoices|
    ensures forall k :: 0 <= k < |invoices| ==> invoices[k].id in outstanding && rows[k] == InvoiceBalance(
      invoices[k].id, invoices[k].amount, AppliedTo(ledger, invoices[k].id),
      outstanding[invoices[k].id], outstanding[invoices[k].id] <= 0.0)
  {
    rows := [];
    for i := 0 to |invoices|
      invariant |rows| == i
      invariant forall k :: 0 <= k < i ==> invoices[k].id in outstanding && rows[k] == InvoiceBalance(
        invoices[k].id, invoices[k].amount, AppliedTo(ledger, invoices[k].id),
        outstanding[invoices[k].id], outstanding[invoices[k].id] <= 0.0)
    {
      var inv := invoices[i];
      assert inv in invoices;
      rows := rows + [
        InvoiceBalance(inv.id, inv.amount, applied[inv.id], outstanding[inv.id], outstanding[inv.id] <= 0.0)];
    }
  }
}
