/** Handing the sales entries of order fulfillment to the sales closing: when it takes them, and what it invoices. */
module OrderClosing {
  import opened Wrappers
  import opened Sums
  import opened Lists
  import opened Sorting
  import opened Calendar
  import opened PaymentTerms
  import Tax = InvoiceTax
  import Orders = OrderFulfillment
  import Sales = SalesClosing

  /** An entry as a line of the closing, its day number read as a date. */
  function LineOf(e: Orders.SalesEntry, dates: int -> Date): Sales.SalesLine {
    Sales.SalesLine(e.lineId, e.customerCode, e.customerName, dates(e.salesDate), e.amount, e.taxRate)
  }

  function LinesOf(entries: seq<Orders.SalesEntry>, dates: int -> Date): (lines: seq<Sales.SalesLine>)
    ensures |lines| == |entries| && forall i :: 0 <= i < |entries| ==> lines[i] == LineOf(entries[i], dates)
  {
    seq(|entries|, i requires 0 <= i < |entries| => LineOf(entries[i], dates))
  }

  /** The line identifier a shipment's entry gets. */
  function LineIdOf(s: Orders.Shipment): string { s.orderId + "-" + s.shipmentId }
  function EntryId(e: Orders.SalesEntry): string { e.lineId }

  function Map<T, U>(s: seq<T>, f: T -> U): (r: seq<U>)
    ensures |r| == |s| && forall i :: 0 <= i < |s| ==> r[i] == f(s[i])
  {
    if s == [] then [] else Map(s[..|s| - 1], f) + [f(s[|s| - 1])]
  }

  /** What the closing asks of an order that has shipped. */
  predicate Ready(customerCode: string, taxRate: real, terms: seq<Sales.BillingTerms>) {
    var t := Sales.TermsFor(terms, customerCode);
    Tax.Allowed(taxRate) && t.Some? && TermsProblem(t.value).None?
  }

  ghost predicate ShippedAreReady(
    orders: seq<Orders.Order>, shipments: seq<Orders.Shipment>, terms: seq<Sales.BillingTerms>)
  {
    forall i {:trigger orders[i]} :: 0 <= i < |orders| && Orders.Prepared(orders[i], shipments) != [] ==>
      Ready(orders[i].customerCode, orders[i].taxRate, terms)
  }

  /** The closing takes the entries of these orders and shipments. */
  ghost predicate CanBeClosed(
    orders: seq<Orders.Order>, shipments: seq<Orders.Shipment>, terms: seq<Sales.BillingTerms>)
  {
    && Sales.UniqueCustomers(terms)
    && Distinct(Map(shipments, LineIdOf))
    && Orders.AllLastSalesFit(orders, shipments)
    && ShippedAreReady(orders, shipments, terms)
  }

  // ----- Amounts, rates and terms -----

  ghost predicate EntriesReady(entries: seq<Orders.SalesEntry>, terms: seq<Sales.BillingTerms>) {
    forall i {:trigger entries[i]} :: 0 <= i < |entries| ==> Ready(entries[i].customerCode, entries[i].taxRate, terms)
  }

  lemma LineIsTaken(e: Orders.SalesEntry, dates: int -> Date, terms: seq<Sales.BillingTerms>)
    ensures var l := LineOf(e, dates);
      (Sales.GroupingProblem(l, terms).None? && Sales.InvoicingProblem(l, terms).None?)
        <==> e.amount >= 0.0 && Ready(e.customerCode, e.taxRate, terms)
  {
  }

  lemma {:induction false} EntriesCount(o: Orders.Order, shipments: seq<Orders.Shipment>)
    ensures |Orders.EntriesOf(o, shipments)| == |shipments|
  {
    if shipments != [] {
      EntriesCount(o, shipments[..|shipments| - 1]);
    }
  }

  /** The entries of an order carry its customer and its rate, and their identifiers name its shipments. */
  lemma {:induction false} EntriesCarry(o: Orders.Order, shipments: seq<Orders.Shipment>, i: nat)
    requires i < |shipments|
    ensures var entries := Orders.EntriesOf(o, shipments);
      && |entries| == |shipments|
      && entries[i].customerCode == o.customerCode && entries[i].taxRate == o.taxRate
      && entries[i].lineId == o.orderId + "-" + shipments[i].shipmentId
  {
    var init := shipments[..|shipments| - 1];
    EntriesCount(o, shipments);
    EntriesCount(o, init);
    if i < |init| {
      EntriesCarry(o, init, i);
    }
  }

  lemma OrderIsReady(o: Orders.Order, shipments: seq<Orders.Shipment>, terms: seq<Sales.BillingTerms>)
    ensures EntriesReady(Orders.EntriesOf(o, shipments), terms)
       <==> (shipments != [] ==> Ready(o.customerCode, o.taxRate, terms))
  {
    hide Ready;
    var entries := Orders.EntriesOf(o, shipments);
    if shipments != [] {
      EntriesCarry(o, shipments, 0);
      forall i | 0 <= i < |entries|
        ensures entries[i].customerCode == o.customerCode && entries[i].taxRate == o.taxRate
      {
        EntriesCarry(o, shipments, i);
      }
      assert entries[0].customerCode == o.customerCode;
    }
  }

  lemma ReadyConcat(a: seq<Orders.SalesEntry>, b: seq<Orders.SalesEntry>, terms: seq<Sales.BillingTerms>)
    ensures EntriesReady(a + b, terms) <==> EntriesReady(a, terms) && EntriesReady(b, terms)
  {
    hide Ready;
    assert forall i :: 0 <= i < |a| ==> (a + b)[i] == a[i];
    assert forall i :: 0 <= i < |b| ==> (a + b)[|a| + i] == b[i];
  }

  lemma {:induction false} AllAreReady(
    orders: seq<Orders.Order>, shipments: seq<Orders.Shipment>, terms: seq<Sales.BillingTerms>)
    ensures EntriesReady(Orders.AllEntries(orders, shipments), terms) <==> ShippedAreReady(orders, shipments, terms)
  {
    hide Ready, Orders.Prepared, Orders.EntriesOf;
    if orders != [] {
      var init, last := orders[..|orders| - 1], orders[|orders| - 1];
      assert forall i :: 0 <= i < |init| ==> init[i] == orders[i];
      AllAreReady(init, shipments, terms);
      OrderIsReady(last, Orders.Prepared(last, shipments), terms);
      ReadyConcat(
        Orders.AllEntries(init, shipments), Orders.EntriesOf(last, Orders.Prepared(last, shipments)), terms);
    }
  }

  lemma ReadyForgetsOrder(
    a: seq<Orders.SalesEntry>, b: seq<Orders.SalesEntry>, terms: seq<Sales.BillingTerms>)
    requires multiset(a) == multiset(b) && EntriesReady(a, terms)
    ensures EntriesReady(b, terms)
  {
    forall i | 0 <= i < |b|
      ensures Ready(b[i].customerCode, b[i].taxRate, terms)
    {
      assert b[i] in multiset(b);
      assert b[i] in a;
    }
  }

  // ----- Identifiers -----

  lemma {:induction false} MapConcat<T, U>(a: seq<T>, b: seq<T>, f: T -> U)
    ensures Map(a + b, f) == Map(a, f) + Map(b, f)
  {
  }

  lemma {:induction false} MapPermutation<T, U>(a: seq<T>, b: seq<T>, f: T -> U)
    requires multiset(a) == multiset(b)
    ensures multiset(Map(a, f)) == multiset(Map(b, f))
    decreases |a|
  {
    if a == [] {
      assert |multiset(b)| == 0;
    } else {
      var left, right := LastElsewhere(a, b);
      var x := a[|a| - 1];
      MapPermutation(a[..|a| - 1], left + right, f);
      MapConcat(left, right, f);
      MapConcat(left + [x], right, f);
      MapConcat(left, [x], f);
      assert Map([x], f) == [f(x)];
    }
  }

  lemma DistinctEitherWay<T>(a: seq<T>, b: seq<T>)
    requires multiset(a) == multiset(b)
    ensures Distinct(a) <==> Distinct(b)
  {
    if Distinct(a) {
      DistinctPermutation(a, b);
    }
    if Distinct(b) {
      DistinctPermutation(b, a);
    }
  }

  /** The shipments of the first orders, order by order. */
  function Gathered(orders: seq<Orders.Order>, shipments: seq<Orders.Shipment>): seq<Orders.Shipment> {
    if orders == [] then []
    else
      Gathered(orders[..|orders| - 1], shipments) + Orders.Prepared(orders[|orders| - 1], shipments)
  }

  predicate IsFor(orders: seq<Orders.Order>, s: Orders.Shipment) {
    exists i :: 0 <= i < |orders| && orders[i].orderId == s.orderId
  }

  function ForAny(orders: seq<Orders.Order>): Orders.Shipment -> bool { (s: Orders.Shipment) => IsFor(orders, s) }

  lemma IsForSnoc(orders: seq<Orders.Order>, o: Orders.Order, s: Orders.Shipment)
    ensures IsFor(orders + [o], s) <==> IsFor(orders, s) || o.orderId == s.orderId
  {
    assert (orders + [o])[|orders|] == o;
    assert forall i :: 0 <= i < |orders| ==> (orders + [o])[i] == orders[i];
  }

  /** Two conditions that exclude each other split a list. */
  lemma {:induction false} FilterSplits<T>(s: seq<T>, p: T -> bool, q: T -> bool, either: T -> bool)
    requires forall x :: x in s ==> (either(x) <==> p(x) || q(x)) && !(p(x) && q(x))
    ensures multiset(Filter(s, either)) == multiset(Filter(s, p)) + multiset(Filter(s, q))
  {
    if s != [] {
      var init, last := s[..|s| - 1], s[|s| - 1];
      assert s == init + [last];
      FilterSplits(init, p, q, either);
      var kept := Filter(init, either);
      assert Filter(s, either) == if either(last) then kept + [last] else kept + [];
      assert kept + [] == kept;
    }
  }

  lemma {:induction false} GatheredAre(orders: seq<Orders.Order>, shipments: seq<Orders.Shipment>)
    requires Orders.UniqueOrders(orders)
    ensures multiset(Gathered(orders, shipments)) == multiset(Filter(shipments, ForAny(orders)))
  {
    if orders == [] {
      NoneFor(shipments);
    } else {
      var init, last := orders[..|orders| - 1], orders[|orders| - 1];
      assert orders == init + [last];
      GatheredAre(init, shipments);
      forall s | s in shipments
        ensures ForAny(orders)(s) <==> ForAny(init)(s) || Orders.ForOrder(last.orderId)(s)
        ensures !(ForAny(init)(s) && Orders.ForOrder(last.orderId)(s))
      {
        IsForSnoc(init, last, s);
      }
      FilterSplits(shipments, ForAny(init), Orders.ForOrder(last.orderId), ForAny(orders));
      var own := Filter(shipments, Orders.ForOrder(last.orderId));
      assert Orders.Prepared(last, shipments) == SortBy(own, Orders.ByDate);
    }
  }

  lemma {:induction false} NoneFor(shipments: seq<Orders.Shipment>)
    ensures Filter(shipments, ForAny([])) == []
  {
    if shipments != [] {
      NoneFor(shipments[..|shipments| - 1]);
    }
  }

  /** When every shipment has its order, gathering rearranges the shipments. */
  lemma GatheredAll(orders: seq<Orders.Order>, shipments: seq<Orders.Shipment>)
    requires Orders.Accepted(orders, shipments)
    ensures multiset(Gathered(orders, shipments)) == multiset(shipments)
  {
    GatheredAre(orders, shipments);
    forall s | s in shipments
      ensures ForAny(orders)(s)
    {
      var i :| 0 <= i < |shipments| && shipments[i] == s;
      assert Orders.ShipmentProblem(shipments[i], orders).None?;
    }
    FilterAll(shipments, ForAny(orders));
  }

  lemma OrderIds(o: Orders.Order, shipments: seq<Orders.Shipment>)
    ensures Map(Orders.EntriesOf(o, Orders.Prepared(o, shipments)), EntryId)
         == Map(Orders.Prepared(o, shipments), LineIdOf)
  {
    var own := Orders.Prepared(o, shipments);
    var entries := Orders.EntriesOf(o, own);
    FilterMembers(shipments, Orders.ForOrder(o.orderId));
    SortMembers(Filter(shipments, Orders.ForOrder(o.orderId)), Orders.ByDate);
    EntriesCount(o, own);
    forall i | 0 <= i < |own|
      ensures i < |entries| && EntryId(entries[i]) == LineIdOf(own[i])
    {
      assert own[i] in own;
      EntriesCarry(o, own, i);
    }
  }

  lemma {:induction false} EntryIds(orders: seq<Orders.Order>, shipments: seq<Orders.Shipment>)
    ensures Map(Orders.AllEntries(orders, shipments), EntryId) == Map(Gathered(orders, shipments), LineIdOf)
  {
    hide Orders.Prepared, Orders.EntriesOf, EntryId, LineIdOf, Map;
    if orders == [] {
      MapNothing();
    } else {
      var init, last := orders[..|orders| - 1], orders[|orders| - 1];
      EntryIds(init, shipments);
      OrderIds(last, shipments);
      MapConcat(
        Orders.AllEntries(init, shipments), Orders.EntriesOf(last, Orders.Prepared(last, shipments)), EntryId);
      MapConcat(Gathered(init, shipments), Orders.Prepared(last, shipments), LineIdOf);
    }
  }

  lemma MapNothing()
    ensures Map([], EntryId) == Map([], LineIdOf) == []
  {
  }

  /** The line identifiers of the entries are, up to order, those of the shipments. */
  lemma IdsAreShipments(orders: seq<Orders.Order>, shipments: seq<Orders.Shipment>, entries: seq<Orders.SalesEntry>)
    requires Orders.Accepted(orders, shipments)
    requires multiset(entries) == multiset(Orders.AllEntries(orders, shipments))
    ensures multiset(Map(entries, EntryId)) == multiset(Map(shipments, LineIdOf))
  {
    hide Orders.Accepted, Orders.AllEntries, EntryId, LineIdOf, Map;
    MapPermutation(entries, Orders.AllEntries(orders, shipments), EntryId);
    EntryIds(orders, shipments);
    GatheredAll(orders, shipments);
    MapPermutation(Gathered(orders, shipments), shipments, LineIdOf);
  }

  // ----- The hand-over -----

  lemma LinesAreUnique(entries: seq<Orders.SalesEntry>, dates: int -> Date)
    ensures Sales.UniqueLineIds(LinesOf(entries, dates)) <==> Distinct(Map(entries, EntryId))
  {
    var lines, ids := LinesOf(entries, dates), Map(entries, EntryId);
    assert forall i :: 0 <= i < |entries| ==> lines[i].lineId == ids[i];
  }

  lemma LinesAreTaken(entries: seq<Orders.SalesEntry>, dates: int -> Date, terms: seq<Sales.BillingTerms>)
    ensures Sales.Closable(LinesOf(entries, dates), terms) <==>
      && Sales.UniqueCustomers(terms) && Sales.UniqueLineIds(LinesOf(entries, dates))
      && Orders.NoneNegative(entries) && EntriesReady(entries, terms)
  {
    hide Ready, Sales.GroupingProblem, Sales.InvoicingProblem, Sales.UniqueCustomers, Sales.UniqueLineIds;
    var lines := LinesOf(entries, dates);
    forall i | 0 <= i < |entries|
      ensures (Sales.GroupingProblem(lines[i], terms).None? && Sales.InvoicingProblem(lines[i], terms).None?)
        <==> entries[i].amount >= 0.0 && Ready(entries[i].customerCode, entries[i].taxRate, terms)
    {
      LineIsTaken(entries[i], dates, terms);
    }
  }

  /**
    * The closing takes the entries of accepted orders exactly when the customers' terms are unique, no two shipments
    * get one line identifier, no order is overrun before its last shipment, and every order that has shipped carries
    * a legal rate and belongs to a customer with valid terms.
    */
  lemma EntriesCloseExactlyWhen(
    asOf: int, orders: seq<Orders.Order>, shipments: seq<Orders.Shipment>, terms: seq<Sales.BillingTerms>,
    dates: int -> Date)
    requires Orders.Accepted(orders, shipments)
    ensures
      var lines := LinesOf(Orders.ResultOf(orders, shipments, asOf).salesEntries, dates);
      Sales.Closable(lines, terms) <==> CanBeClosed(orders, shipments, terms)
  {
    hide Orders.Accepted, Orders.AllEntries, Orders.AllLastSalesFit, Orders.NoneNegative, ShippedAreReady, EntriesReady;
    hide Sales.Closable, Sales.UniqueLineIds, Sales.UniqueCustomers, Distinct, Map;
    var all := Orders.AllEntries(orders, shipments);
    var entries := SortBy(all, Orders.ByLine);
    assert entries == Orders.ResultOf(orders, shipments, asOf).salesEntries;
    Orders.NoSaleIsNegativeExactlyWhen(orders, shipments, asOf);
    AllAreReady(orders, shipments, terms);
    if EntriesReady(all, terms) {
      ReadyForgetsOrder(all, entries, terms);
    }
    if EntriesReady(entries, terms) {
      ReadyForgetsOrder(entries, all, terms);
    }
    IdsAreShipments(orders, shipments, entries);
    DistinctEitherWay(Map(entries, EntryId), Map(shipments, LineIdOf));
    LinesAreUnique(entries, dates);
    LinesAreTaken(entries, dates, terms);
  }

  lemma {:induction false} SameAmounts(entries: seq<Orders.SalesEntry>, dates: int -> Date)
    ensures Total(LinesOf(entries, dates), Sales.LineAmount) == Total(entries, Orders.AmountOf)
  {
    if entries != [] {
      var init, last := entries[..|entries| - 1], entries[|entries| - 1];
      SameAmounts(init, dates);
      assert LinesOf(entries, dates) == LinesOf(init, dates) + [LineOf(last, dates)];
      TotalSnoc(LinesOf(init, dates), LineOf(last, dates), Sales.LineAmount);
    }
  }

  /** Before tax, the invoices of a closing of the entries ask for exactly what was recognised. */
  lemma InvoicedIsRecognized(
    asOf: int, orders: seq<Orders.Order>, shipments: seq<Orders.Shipment>, terms: seq<Sales.BillingTerms>,
    holidays: seq<int>, dates: int -> Date, c: Sales.Closing)
    requires
      Sales.IsClosing(LinesOf(Orders.ResultOf(orders, shipments, asOf).salesEntries, dates), terms, holidays, c)
    ensures c.totalTaxable == Orders.ResultOf(orders, shipments, asOf).totalRecognized
    ensures c.totalAmount == c.totalTaxable + c.totalTax
  {
    hide Sales.IsClosing;
    var r := Orders.ResultOf(orders, shipments, asOf);
    Orders.OrdersAreConserved(orders, shipments, asOf);
    SameAmounts(r.salesEntries, dates);
    Sales.ClosingConservesSales(LinesOf(r.salesEntries, dates), terms, holidays, c);
  }

  // ----- When identifiers collide -----

  /** Shipments with identifiers of their own can get one line identifier. */
  lemma IdsCanCollide()
    ensures
      var a, b := Orders.Shipment("b-c", "a", 0, 1.0), Orders.Shipment("c", "a-b", 0, 1.0);
      a.shipmentId != b.shipmentId && a.orderId != b.orderId && LineIdOf(a) == LineIdOf(b) == "a-b-c"
  {
    assert "a" + "-" + "b-c" == "a-b-c";
    assert "a-b" + "-" + "c" == "a-b-c";
  }

  /** They cannot when no order identifier contains a hyphen. */
  lemma NoHyphenNoCollision(shipments: seq<Orders.Shipment>)
    requires Orders.UniqueShipments(shipments)
    requires forall i :: 0 <= i < |shipments| ==> '-' !in shipments[i].orderId
    ensures Distinct(Map(shipments, LineIdOf))
  {
    forall i, j | 0 <= i < j < |shipments|
      ensures LineIdOf(shipments[i]) != LineIdOf(shipments[j])
    {
      if LineIdOf(shipments[i]) == LineIdOf(shipments[j]) {
        SameSplit(shipments[i], shipments[j]);
      }
    }
  }

  lemma SameSplit(a: Orders.Shipment, b: Orders.Shipment)
    requires '-' !in a.orderId && '-' !in b.orderId && LineIdOf(a) == LineIdOf(b)
    ensures a.shipmentId == b.shipmentId
  {
    var x := LineIdOf(a);
    assert x[|a.orderId|] == '-' && x[|b.orderId|] == '-';
    assert !(|a.orderId| < |b.orderId|) && !(|b.orderId| < |a.orderId|);
    assert x[|a.orderId| + 1..] == a.shipmentId && x[|b.orderId| + 1..] == b.shipmentId;
  }
}
