/** Turning shipments into recognised sales, order by order, and what is left as backlog. */
module OrderFulfillment {
  import opened Wrappers
  import opened Sums
  import opened Lists
  import opened Sorting

  datatype Order = Order(
    orderId: string, customerCode: string, customerName: string, orderDate: int, deliveryDate: int,
    quantity: real, unitPrice: Money, taxRate: real, creditStatus: string)

  datatype Shipment = Shipment(shipmentId: string, orderId: string, shippedDate: int, quantity: real)

  datatype SalesEntry = SalesEntry(
    lineId: string, orderId: string, customerCode: string, customerName: string, salesDate: int, quantity: real,
    amount: Money, taxRate: real)

  datatype Status = NotShipped | PartiallyShipped | Completed | OnHold

  datatype Progress = Progress(
    orderId: string, customerCode: string, customerName: string, deliveryDate: int, status: Status,
    ordered: real, shipped: real, remaining: real, orderAmount: Money, recognized: Money, backlog: Money,
    lastShipped: Option<int>, delayDays: int)

  datatype CustomerBacklog = CustomerBacklog(
    customerCode: string, customerName: string, orderBacklog: Money, openOrders: nat)

  datatype Fulfillment = Fulfillment(
    orders: seq<Progress>, salesEntries: seq<SalesEntry>, backlogs: seq<CustomerBacklog>, totalRecognized: Money,
    totalBacklog: Money, delayedOrderIds: seq<string>, onHoldOrderIds: seq<string>)

  datatype FulfillmentError =
    | DuplicateOrder | DuplicateShipment | QuantityNotPositive | NegativePrice | DeliveryBeforeOrder
    | UnknownOrder(shipmentId: string) | ShipmentNotPositive | OverShipment(shipmentId: string)

  /** Half a yen is rounded away from zero. */
  function Rounded(x: real): real {
    if x >= 0.0 then (x + 0.5).Floor as real else -((-x + 0.5).Floor as real)
  }

  function QuantityOf(s: Shipment): real { s.quantity }

  /** What a quantity is worth at the order's unit price, before rounding. */
  function Worth(o: Order, quantity: real): Money { quantity * o.unitPrice }

  function OrderAmount(o: Order): Money { Rounded(Worth(o, o.quantity)) }

  predicate Near(x: real, y: real, slack: real) { y - slack <= x <= y + slack }

  // ----- One order -----

  /** The price of a shipment, exact and rounded to a yen. */
  function Exact(o: Order, s: Shipment): Money { Worth(o, s.quantity) }
  function InYen(o: Order, s: Shipment): Money { Rounded(Exact(o, s)) }
  function ExactPrice(o: Order): Shipment -> Money { (s: Shipment) => Exact(o, s) }
  function YenPrice(o: Order): Shipment -> Money { (s: Shipment) => InYen(o, s) }

  /** What is recognised after the given shipments: the price of each, or the whole amount once they fill the order. */
  function RecognizedAt(shipments: seq<Shipment>, quantity: real, amount: Money, price: Shipment -> Money): Money {
    if shipments == [] then 0.0
    else if Total(shipments, QuantityOf) == quantity then amount
    else
      RecognizedAt(shipments[..|shipments| - 1], quantity, amount, price) + price(shipments[|shipments| - 1])
  }

  function Recognized(o: Order, shipments: seq<Shipment>): Money {
    RecognizedAt(shipments, o.quantity, OrderAmount(o), YenPrice(o))
  }

  lemma RecognizedSnoc(shipments: seq<Shipment>, s: Shipment, quantity: real, amount: Money, price: Shipment -> Money)
    ensures Total(shipments + [s], QuantityOf) == Total(shipments, QuantityOf) + s.quantity
    ensures RecognizedAt(shipments + [s], quantity, amount, price)
         == if Total(shipments, QuantityOf) + s.quantity == quantity then amount
            else RecognizedAt(shipments, quantity, amount, price) + price(s)
  {
    assert (shipments + [s])[..|shipments|] == shipments;
    TotalSnoc(shipments, s, QuantityOf);
  }

  function EntryFor(o: Order, before: Money, after: Money, s: Shipment): SalesEntry {
    SalesEntry(
      o.orderId + "-" + s.shipmentId, o.orderId, o.customerCode, o.customerName, s.shippedDate, s.quantity,
      after - before, o.taxRate)
  }

  function EntriesAt(o: Order, shipments: seq<Shipment>, amount: Money, price: Shipment -> Money): seq<SalesEntry> {
    if shipments == [] then []
    else
      var init, last := shipments[..|shipments| - 1], shipments[|shipments| - 1];
      EntriesAt(o, init, amount, price)
      + [EntryFor(
           o, RecognizedAt(init, o.quantity, amount, price), RecognizedAt(shipments, o.quantity, amount, price), last)]
  }

  function EntriesOf(o: Order, shipments: seq<Shipment>): seq<SalesEntry> {
    EntriesAt(o, shipments, OrderAmount(o), YenPrice(o))
  }

  predicate Shippable(creditStatus: string) {
    creditStatus == "approved" || creditStatus == "warning"
  }

  function StatusOf(o: Order, shipped: real): Status {
    if o.quantity - shipped <= 0.0 then Completed
    else if !Shippable(o.creditStatus) then OnHold
    else if shipped > 0.0 then PartiallyShipped
    else NotShipped
  }

  function ProgressOf(o: Order, shipments: seq<Shipment>, asOf: int): Progress {
    var shipped := Total(shipments, QuantityOf);
    Progress(
      o.orderId, o.customerCode, o.customerName, o.deliveryDate, StatusOf(o, shipped), o.quantity, shipped,
      o.quantity - shipped, OrderAmount(o), Recognized(o, shipments), OrderAmount(o) - Recognized(o, shipments),
      if shipments == [] then None else Some(shipments[|shipments| - 1].shippedDate),
      if StatusOf(o, shipped) != Completed && o.deliveryDate < asOf then asOf - o.deliveryDate else 0)
  }

  /** A whole number of yen, the nearest one; of two equally near the one farther from zero. */
  lemma RoundedMeans(x: real) returns (n: int)
    ensures Rounded(x) == n as real
    ensures if x >= 0.0 then Rounded(x) - 0.5 <= x < Rounded(x) + 0.5 else Rounded(x) - 0.5 < x <= Rounded(x) + 0.5
  {
    n := if x >= 0.0 then (x + 0.5).Floor else -(-x + 0.5).Floor;
  }

  /** Where an order stands: completed once everything is shipped, held while the credit is neither approved nor on
      warning, late by the days since its delivery date while anything is missing. */
  lemma ProgressMeans(o: Order, shipments: seq<Shipment>, asOf: int)
    ensures
      var p, shipped := ProgressOf(o, shipments, asOf), Total(shipments, QuantityOf);
      && p.orderId == o.orderId && p.customerCode == o.customerCode && p.customerName == o.customerName
      && p.deliveryDate == o.deliveryDate && p.ordered == o.quantity && p.shipped == shipped
      && p.remaining == o.quantity - shipped
      && (p.status == Completed <==> shipped >= o.quantity)
      && (p.status == OnHold <==> shipped < o.quantity && o.creditStatus !in {"approved", "warning"})
      && (p.status == PartiallyShipped <==>
            0.0 < shipped < o.quantity && o.creditStatus in {"approved", "warning"})
      && p.delayDays == (if shipped < o.quantity && o.deliveryDate < asOf then asOf - o.deliveryDate else 0)
      && (p.lastShipped.Some? ==> shipments != [] && p.lastShipped.value == shipments[|shipments| - 1].shippedDate)
      && (p.lastShipped.None? ==> shipments == [])
  {
  }

  /** The sale of one shipment: its price in whole yen, or what is missing to the amount when it fills the order. */
  ghost predicate IsSale(o: Order, before: seq<Shipment>, s: Shipment, e: SalesEntry) {
    && e.lineId == o.orderId + "-" + s.shipmentId && e.orderId == o.orderId
    && e.customerCode == o.customerCode && e.customerName == o.customerName && e.taxRate == o.taxRate
    && e.salesDate == s.shippedDate && e.quantity == s.quantity
    && e.amount == if Total(before, QuantityOf) + s.quantity == o.quantity
                   then Rounded(Worth(o, o.quantity)) - Total(before, YenPrice(o))
                   else Rounded(Worth(o, s.quantity))
  }

  /** One sale for each shipment, in their order. */
  lemma {:induction false} SalesMean(o: Order, shipments: seq<Shipment>, n: nat)
    requires AllPositive(shipments) && Total(shipments, QuantityOf) <= o.quantity && n < |shipments|
    ensures |EntriesOf(o, shipments)| == |shipments|
    ensures IsSale(o, shipments[..n], shipments[n], EntriesOf(o, shipments)[n])
    decreases |shipments|
  {
    hide IsSale, EntryFor, RecognizedAt;
    var init, last := shipments[..|shipments| - 1], shipments[|shipments| - 1];
    if n < |init| {
      SalesMean(o, init, n);
      assert init[..n] == shipments[..n];
    } else {
      if init != [] {
        SalesMean(o, init, 0);
      }
      StartsEmpty(o, OrderAmount(o), YenPrice(o));
      LastSale(o, init, last);
      assert init + [last] == shipments;
    }
  }

  lemma LastSale(o: Order, init: seq<Shipment>, s: Shipment)
    requires AllPositive(init) && s.quantity > 0.0 && Total(init, QuantityOf) + s.quantity <= o.quantity
    ensures IsSale(o, init, s, EntryFor(o, Recognized(o, init), Recognized(o, init + [s]), s))
  {
    hide Total, Rounded, OrderAmount, YenPrice, Recognized, AllPositive;
    SummedSoFar(o, init);
    OneMoreRecognized(o, init, s);
    PricesMean(o, s);
  }

  lemma SummedSoFar(o: Order, init: seq<Shipment>)
    requires AllPositive(init) && Total(init, QuantityOf) < o.quantity
    ensures Recognized(o, init) == Total(init, YenPrice(o))
  {
    UnfilledIsSummed(init, o.quantity, OrderAmount(o), YenPrice(o));
  }

  lemma OneMoreRecognized(o: Order, init: seq<Shipment>, s: Shipment)
    ensures Recognized(o, init + [s]) ==
      if Total(init, QuantityOf) + s.quantity == o.quantity then OrderAmount(o)
      else Recognized(o, init) + YenPrice(o)(s)
  {
    RecognizedSnoc(init, s, o.quantity, OrderAmount(o), YenPrice(o));
  }

  lemma PricesMean(o: Order, s: Shipment)
    ensures Worth(o, s.quantity) == s.quantity * o.unitPrice
    ensures OrderAmount(o) == Rounded(Worth(o, o.quantity)) && YenPrice(o)(s) == Rounded(Worth(o, s.quantity))
  {
    assert YenPrice(o)(s) == InYen(o, s);
  }

  ghost predicate AllPositive(shipments: seq<Shipment>) {
    forall i :: 0 <= i < |shipments| ==> shipments[i].quantity > 0.0
  }

  /** The shipment with which the order's quantity is first exceeded. */
  ghost predicate ExceedsAt(o: Order, shipments: seq<Shipment>, id: string) {
    exists n {:trigger shipments[n]} :: 0 <= n < |shipments| && shipments[n].shipmentId == id
      && Total(shipments[..n], QuantityOf) <= o.quantity < Total(shipments[..n + 1], QuantityOf)
  }

  lemma {:induction false} PrefixShipsNoMore(shipments: seq<Shipment>, n: nat)
    requires n <= |shipments| && AllPositive(shipments)
    ensures Total(shipments[..n], QuantityOf) <= Total(shipments, QuantityOf)
  {
    if n < |shipments| {
      var init := shipments[..|shipments| - 1];
      assert init[..n] == shipments[..n];
      PrefixShipsNoMore(init, n);
    } else {
      assert shipments[..n] == shipments;
    }
  }

  lemma EntriesSnoc(o: Order, shipments: seq<Shipment>, s: Shipment, amount: Money, price: Shipment -> Money)
    ensures EntriesAt(o, shipments + [s], amount, price)
         == EntriesAt(o, shipments, amount, price)
            + [EntryFor(
                 o, RecognizedAt(shipments, o.quantity, amount, price),
                 RecognizedAt(shipments + [s], o.quantity, amount, price), s)]
  {
    assert (shipments + [s])[..|shipments|] == shipments;
  }

  lemma ExceededHere(o: Order, shipments: seq<Shipment>, n: nat)
    requires AllPositive(shipments) && n < |shipments|
    requires Total(shipments[..n], QuantityOf) <= o.quantity < Total(shipments[..n + 1], QuantityOf)
    ensures ExceedsAt(o, shipments, shipments[n].shipmentId) && o.quantity < Total(shipments, QuantityOf)
  {
    PrefixShipsNoMore(shipments, n + 1);
  }

  lemma StartsEmpty(o: Order, amount: Money, price: Shipment -> Money)
    ensures Total([], QuantityOf) == RecognizedAt([], o.quantity, amount, price) == 0.0
    ensures EntriesAt(o, [], amount, price) == []
  {
  }

  datatype Shipped = Shipped(quantity: real, recognized: Money, last: Option<int>, entries: seq<SalesEntry>)

  /** The loop over the shipments of one order. */
  method ShipAll(o: Order, shipments: seq<Shipment>, amount: Money, price: Shipment -> Money)
    returns (r: Result<Shipped, FulfillmentError>)
    requires AllPositive(shipments) && o.quantity > 0.0
    ensures r.Ok? <==> Total(shipments, QuantityOf) <= o.quantity
    ensures r.Ok? ==>
      && r.value.quantity == Total(shipments, QuantityOf)
      && r.value.recognized == RecognizedAt(shipments, o.quantity, amount, price)
      && r.value.last == (if shipments == [] then None else Some(shipments[|shipments| - 1].shippedDate))
      && r.value.entries == EntriesAt(o, shipments, amount, price)
    ensures r.Err? ==> r.error.OverShipment? && ExceedsAt(o, shipments, r.error.shipmentId)
  {
    hide EntryFor, EntriesAt, RecognizedAt, ExceedsAt, Total;
    StartsEmpty(o, amount, price);
    var shipped, recognized := 0.0, 0.0;
    var last: Option<int> := None;
    var entries: seq<SalesEntry> := [];
    var n := 0;
    while n < |shipments|
      invariant 0 <= n <= |shipments|
      invariant shipped == Total(shipments[..n], QuantityOf) <= o.quantity
      invariant recognized == RecognizedAt(shipments[..n], o.quantity, amount, price)
      invariant entries == EntriesAt(o, shipments[..n], amount, price)
      invariant last == if n == 0 then None else Some(shipments[n - 1].shippedDate)
    {
      var s := shipments[n];
      assert shipments[..n + 1] == shipments[..n] + [s];
      EntriesSnoc(o, shipments[..n], s, amount, price);
      RecognizedSnoc(shipments[..n], s, o.quantity, amount, price);
      shipped := shipped + s.quantity;
      if shipped > o.quantity {
        ExceededHere(o, shipments, n);
        return Err(OverShipment(s.shipmentId));
      }
      var sale := if shipped == o.quantity then amount - recognized else price(s);
      entries := entries + [EntryFor(o, recognized, recognized + sale, s)];
      recognized := recognized + sale;
      last := Some(s.shippedDate);
      n := n + 1;
    }
    assert shipments[..n] == shipments;
    return Ok(Shipped(shipped, recognized, last, entries));
  }

  method ProcessOrder(o: Order, shipments: seq<Shipment>, asOf: int)
    returns (r: Result<(Progress, seq<SalesEntry>), FulfillmentError>)
    requires AllPositive(shipments) && o.quantity > 0.0
    ensures r.Ok? <==> Total(shipments, QuantityOf) <= o.quantity
    ensures r.Ok? ==> r.value == (ProgressOf(o, shipments, asOf), EntriesOf(o, shipments))
    ensures r.Err? ==> r.error.OverShipment? && ExceedsAt(o, shipments, r.error.shipmentId)
  {
    var orderAmount := OrderAmount(o);
    var shipped := ShipAll(o, shipments, orderAmount, YenPrice(o));
    if shipped.Err? {
      return Err(shipped.error);
    }
    var remaining := o.quantity - shipped.value.quantity;
    var status :=
      if remaining <= 0.0 then Completed
      else if !Shippable(o.creditStatus) then OnHold
      else if shipped.value.quantity > 0.0 then PartiallyShipped
      else NotShipped;
    var delayDays := 0;
    if status != Completed && o.deliveryDate < asOf {
      delayDays := asOf - o.deliveryDate;
    }
    var progress := Progress(
      o.orderId, o.customerCode, o.customerName, o.deliveryDate, status, o.quantity, shipped.value.quantity, remaining,
      orderAmount, shipped.value.recognized, orderAmount - shipped.value.recognized, shipped.value.last, delayDays);
    return Ok((progress, shipped.value.entries));
  }

  // ----- Rounding: how far recognised sales can be from the price of what was shipped -----

  lemma RoundedIsNear(x: real)
    ensures x - 0.5 <= Rounded(x) <= x + 0.5
  {
  }

  lemma YenIsNear(o: Order, s: Shipment)
    ensures ExactPrice(o)(s) - 0.5 <= YenPrice(o)(s) <= ExactPrice(o)(s) + 0.5
  {
    RoundedIsNear(Exact(o, s));
    assert ExactPrice(o)(s) == Exact(o, s) && YenPrice(o)(s) == InYen(o, s);
  }

  lemma {:induction false} NearPricesAddUp(
    shipments: seq<Shipment>, quantity: real, amount: Money, price: Shipment -> Money, exact: Shipment -> Money,
    slack: real)
    requires AllPositive(shipments) && Total(shipments, QuantityOf) < quantity && slack >= 0.0
    requires forall s: Shipment :: exact(s) - slack <= price(s) <= exact(s) + slack
    ensures Total(shipments, exact) - |shipments| as real * slack <= RecognizedAt(shipments, quantity, amount, price)
    ensures RecognizedAt(shipments, quantity, amount, price) <= Total(shipments, exact) + |shipments| as real * slack
  {
    if shipments != [] {
      var init := shipments[..|shipments| - 1];
      NearPricesAddUp(init, quantity, amount, price, exact, slack);
      assert |shipments| as real * slack == |init| as real * slack + slack;
    }
  }

  lemma {:induction false} ExactTotal(o: Order, shipments: seq<Shipment>)
    ensures Total(shipments, ExactPrice(o)) == Worth(o, Total(shipments, QuantityOf))
  {
    if shipments != [] {
      var init, last := shipments[..|shipments| - 1], shipments[|shipments| - 1];
      ExactTotal(o, init);
      WorthSplits(o, Total(init, QuantityOf), last.quantity);
    }
  }

  lemma WorthSplits(o: Order, a: real, b: real)
    ensures Worth(o, a + b) == Worth(o, a) + Worth(o, b)
  {
  }

  lemma YenPricesAddUp(o: Order, shipments: seq<Shipment>, amount: Money)
    requires AllPositive(shipments) && Total(shipments, QuantityOf) < o.quantity
    ensures
      var exact := Total(shipments, ExactPrice(o));
      var recognized := RecognizedAt(shipments, o.quantity, amount, YenPrice(o));
      exact - |shipments| as real * 0.5 <= recognized <= exact + |shipments| as real * 0.5
  {
    forall s: Shipment
      ensures ExactPrice(o)(s) - 0.5 <= YenPrice(o)(s) <= ExactPrice(o)(s) + 0.5
    {
      YenIsNear(o, s);
    }
    NearPricesAddUp(shipments, o.quantity, amount, YenPrice(o), ExactPrice(o), 0.5);
  }

  /** While an order is not filled, each shipment contributes at most half a yen of rounding. */
  lemma RecognizedIsNear(o: Order, shipments: seq<Shipment>)
    requires AllPositive(shipments) && Total(shipments, QuantityOf) < o.quantity
    ensures Near(Recognized(o, shipments), Worth(o, Total(shipments, QuantityOf)), |shipments| as real * 0.5)
  {
    var amount := OrderAmount(o);
    YenPricesAddUp(o, shipments, amount);
    ExactTotal(o, shipments);
  }

  /** A filled order recognises its whole amount, and only then is it completed. */
  lemma FilledOrderIsRecognized(o: Order, shipments: seq<Shipment>, asOf: int)
    requires o.quantity > 0.0 && Total(shipments, QuantityOf) <= o.quantity
    ensures
      var p := ProgressOf(o, shipments, asOf);
      && (p.status == Completed <==> Total(shipments, QuantityOf) == o.quantity)
      && (p.status == Completed ==> p.recognized == OrderAmount(o) && p.backlog == 0.0)
      && p.recognized + p.backlog == p.orderAmount
  {
    if shipments == [] {
      assert Total(shipments, QuantityOf) == 0.0;
    }
  }

  /** The backlog is the price of what remains, up to half a yen a shipment and half a yen for the order. */
  lemma BacklogIsNear(o: Order, shipments: seq<Shipment>)
    requires AllPositive(shipments) && Total(shipments, QuantityOf) < o.quantity
    ensures
      var remaining := o.quantity - Total(shipments, QuantityOf);
      Near(OrderAmount(o) - Recognized(o, shipments), Worth(o, remaining), |shipments| as real * 0.5 + 0.5)
  {
    RecognizedIsNear(o, shipments);
    RestIsNear(o, Total(shipments, QuantityOf), Recognized(o, shipments), |shipments| as real * 0.5);
  }

  lemma RestIsNear(o: Order, shipped: real, recognized: Money, slack: real)
    requires Near(recognized, Worth(o, shipped), slack)
    ensures Near(OrderAmount(o) - recognized, Worth(o, o.quantity - shipped), slack + 0.5)
  {
    RoundedIsNear(Worth(o, o.quantity));
    WorthSplits(o, shipped, o.quantity - shipped);
  }

  /** The entries of an order add up to what it recognises. */
  lemma {:induction false} EntriesAddUp(o: Order, shipments: seq<Shipment>)
    ensures Total(EntriesOf(o, shipments), AmountOf) == Recognized(o, shipments)
    ensures Total(EntriesOf(o, shipments), EntryQuantity) == Total(shipments, QuantityOf)
  {
    if shipments != [] {
      var init, last := shipments[..|shipments| - 1], shipments[|shipments| - 1];
      EntriesAddUp(o, init);
      var entry := EntryFor(o, Recognized(o, init), Recognized(o, shipments), last);
      TotalSnoc(EntriesOf(o, init), entry, AmountOf);
      TotalSnoc(EntriesOf(o, init), entry, EntryQuantity);
    }
  }

  function AmountOf(e: SalesEntry): Money { e.amount }
  function EntryQuantity(e: SalesEntry): real { e.quantity }

  ghost predicate WholePrices(o: Order, shipments: seq<Shipment>) {
    forall i :: 0 <= i < |shipments| ==> YenPrice(o)(shipments[i]) == ExactPrice(o)(shipments[i])
  }

  /** When every shipment is worth whole yen, nothing is rounded. */
  lemma {:induction false} WholePricesRoundNothing(o: Order, shipments: seq<Shipment>, amount: Money)
    requires AllPositive(shipments) && Total(shipments, QuantityOf) < o.quantity && WholePrices(o, shipments)
    ensures RecognizedAt(shipments, o.quantity, amount, YenPrice(o)) == Worth(o, Total(shipments, QuantityOf))
  {
    ExactTotal(o, shipments);
    if shipments != [] {
      var init := shipments[..|shipments| - 1];
      forall i | 0 <= i < |init|
        ensures YenPrice(o)(init[i]) == ExactPrice(o)(init[i])
      {
        assert init[i] == shipments[i];
      }
      WholePricesRoundNothing(o, init, amount);
      ExactTotal(o, init);
    }
  }

  // ----- When rounding runs ahead of the order's amount -----

  /** An order not filled recognises the sum of its shipments' prices. */
  lemma {:induction false} UnfilledIsSummed(
    shipments: seq<Shipment>, quantity: real, amount: Money, price: Shipment -> Money)
    requires AllPositive(shipments) && Total(shipments, QuantityOf) < quantity
    ensures RecognizedAt(shipments, quantity, amount, price) == Total(shipments, price)
  {
    if shipments != [] {
      UnfilledIsSummed(shipments[..|shipments| - 1], quantity, amount, price);
    }
  }

  /** The shipments fill the order, or their prices in whole yen do not exceed its amount. */
  predicate WithinAmount(o: Order, shipments: seq<Shipment>) {
    Total(shipments, QuantityOf) == o.quantity || Total(shipments, YenPrice(o)) <= OrderAmount(o)
  }

  /** An order has a negative backlog exactly when it is not filled and its shipments, each rounded to a yen, already
      cost more than the whole order. */
  lemma BacklogIsNotNegativeExactlyWhen(o: Order, shipments: seq<Shipment>, asOf: int)
    requires AllPositive(shipments) && Total(shipments, QuantityOf) <= o.quantity && o.quantity > 0.0
    ensures ProgressOf(o, shipments, asOf).backlog >= 0.0 <==> WithinAmount(o, shipments)
  {
    if Total(shipments, QuantityOf) < o.quantity {
      UnfilledIsSummed(shipments, o.quantity, OrderAmount(o), YenPrice(o));
    } else {
      FilledOrderIsRecognized(o, shipments, asOf);
    }
  }

  /** The shipments before the one that fills the order do not cost more than the whole order. */
  predicate LastSaleFits(o: Order, shipments: seq<Shipment>) {
    || shipments == [] || Total(shipments, QuantityOf) < o.quantity
    || Total(shipments[..|shipments| - 1], YenPrice(o)) <= OrderAmount(o)
  }

  predicate NoneNegative(entries: seq<SalesEntry>) {
    forall i :: 0 <= i < |entries| ==> entries[i].amount >= 0.0
  }

  lemma YenIsNotNegative(o: Order, s: Shipment)
    requires o.unitPrice >= 0.0 && s.quantity > 0.0
    ensures YenPrice(o)(s) >= 0.0
  {
    assert Exact(o, s) >= 0.0;
    assert YenPrice(o)(s) == InYen(o, s);
  }

  /** No sales entry of an order is negative, except possibly the one that fills it: that entry is negative exactly
      when the shipments before it already cost more than the whole order. */
  lemma {:induction false} SaleIsNotNegativeExactlyWhen(o: Order, shipments: seq<Shipment>)
    requires AllPositive(shipments) && Total(shipments, QuantityOf) <= o.quantity && o.unitPrice >= 0.0
    ensures NoneNegative(EntriesOf(o, shipments)) <==> LastSaleFits(o, shipments)
  {
    if shipments != [] {
      var init, last := shipments[..|shipments| - 1], shipments[|shipments| - 1];
      SaleIsNotNegativeExactlyWhen(o, init);
      UnfilledIsSummed(init, o.quantity, OrderAmount(o), YenPrice(o));
      YenIsNotNegative(o, last);
      var entries := EntriesOf(o, shipments);
      assert entries == EntriesOf(o, init) + [entries[|entries| - 1]];
      assert forall i :: 0 <= i < |entries| - 1 ==> entries[i] == EntriesOf(o, init)[i];
    }
  }

  /** Four pieces at half a yen are worth two yen. */
  const HALF_YEN := Order("o", "c", "", 0, 0, 4.0, 0.5, 0.10, "approved")

  /** Single pieces, shipped one by one. */
  ghost predicate Pieces(shipments: seq<Shipment>) {
    forall i :: 0 <= i < |shipments| ==> shipments[i].quantity == 1.0
  }

  /** Each single piece is recognised at one yen until the fourth fills the order. */
  lemma {:induction false} PiecesCost(shipments: seq<Shipment>)
    requires Pieces(shipments) && |shipments| < 4
    ensures Total(shipments, QuantityOf) == |shipments| as real
    ensures Recognized(HALF_YEN, shipments) == |shipments| as real
  {
    if shipments != [] {
      var init, last := shipments[..|shipments| - 1], shipments[|shipments| - 1];
      PiecesCost(init);
      assert Rounded(0.5) == 1.0;
      assert YenPrice(HALF_YEN)(last) == InYen(HALF_YEN, last) == 1.0;
    }
  }

  /** Rounding up can run ahead of the order's amount: three pieces already recognise three yen of two. */
  lemma BacklogCanBeNegative(shipments: seq<Shipment>, asOf: int)
    requires Pieces(shipments) && |shipments| == 3
    ensures OrderAmount(HALF_YEN) == 2.0
    ensures ProgressOf(HALF_YEN, shipments, asOf).recognized == 3.0
    ensures ProgressOf(HALF_YEN, shipments, asOf).backlog == -1.0
  {
    PiecesCost(shipments);
    assert Rounded(2.0) == 2.0;
  }

  /** The fourth piece then fills the order with a sale of minus one yen. */
  lemma LastSaleCanBeNegative(shipments: seq<Shipment>)
    requires Pieces(shipments) && |shipments| == 4
    ensures EntriesOf(HALF_YEN, shipments) != []
    ensures EntriesOf(HALF_YEN, shipments)[|EntriesOf(HALF_YEN, shipments)| - 1].amount == -1.0
  {
    var init := shipments[..3];
    PiecesCost(init);
    assert Rounded(2.0) == 2.0;
    assert Total(shipments, QuantityOf) == 4.0;
  }

  // ----- All orders -----

  function ForOrder(orderId: string): Shipment -> bool { (s: Shipment) => s.orderId == orderId }

  function ByDate(s: Shipment): Key { Key(s.shippedDate, s.shipmentId) }

  /** The shipments of one order in the order of their dates. */
  function Prepared(o: Order, shipments: seq<Shipment>): seq<Shipment> {
    SortBy(Filter(shipments, ForOrder(o.orderId)), ByDate)
  }

  /** An order's own shipments, all of them, by date and then by identifier. */
  lemma PreparedIs(o: Order, shipments: seq<Shipment>)
    ensures forall s :: s in Prepared(o, shipments) <==> s in shipments && s.orderId == o.orderId
    ensures |Prepared(o, shipments)| == |Filter(shipments, ForOrder(o.orderId))|
    ensures forall i, j {:trigger Prepared(o, shipments)[i], Prepared(o, shipments)[j]} ::
      0 <= i < j < |Prepared(o, shipments)| ==> ShippedFirst(Prepared(o, shipments)[i], Prepared(o, shipments)[j])
  {
    var own := Filter(shipments, ForOrder(o.orderId));
    FilterMembers(shipments, ForOrder(o.orderId));
    SortMembers(own, ByDate);
    SortBySorted(own, ByDate);
    var sorted := Prepared(o, shipments);
    forall i, j | 0 <= i < j < |sorted|
      ensures ShippedFirst(sorted[i], sorted[j])
    {
      assert KeyLeq(ByDate(sorted[i]), ByDate(sorted[j]));
    }
    assert |multiset(sorted)| == |multiset(own)|;
  }

  ghost predicate ShippedFirst(a: Shipment, b: Shipment) {
    a.shippedDate < b.shippedDate || (a.shippedDate == b.shippedDate && TextLeq(a.shipmentId, b.shipmentId))
  }

  predicate UniqueOrders(orders: seq<Order>) {
    forall i, j :: 0 <= i < j < |orders| ==> orders[i].orderId != orders[j].orderId
  }

  predicate UniqueShipments(shipments: seq<Shipment>) {
    forall i, j :: 0 <= i < j < |shipments| ==> shipments[i].shipmentId != shipments[j].shipmentId
  }

  function OrderProblem(o: Order): Option<FulfillmentError> {
    if o.quantity <= 0.0 then Some(QuantityNotPositive)
    else if o.unitPrice < 0.0 then Some(NegativePrice)
    else if o.deliveryDate < o.orderDate then Some(DeliveryBeforeOrder)
    else None
  }

  function ShipmentProblem(s: Shipment, orders: seq<Order>): Option<FulfillmentError> {
    if forall i :: 0 <= i < |orders| ==> orders[i].orderId != s.orderId then Some(UnknownOrder(s.shipmentId))
    else if s.quantity <= 0.0 then Some(ShipmentNotPositive)
    else None
  }

  /** What an order and a shipment must be, and the order of the complaints. */
  lemma RefusedExactlyWhen(o: Order, s: Shipment, orders: seq<Order>)
    ensures OrderProblem(o).None? <==> o.quantity > 0.0 && o.unitPrice >= 0.0 && o.deliveryDate >= o.orderDate
    ensures OrderProblem(o).Some? ==>
      OrderProblem(o).value ==
      if o.quantity <= 0.0 then QuantityNotPositive else if o.unitPrice < 0.0 then NegativePrice
      else DeliveryBeforeOrder
    ensures ShipmentProblem(s, orders).None? <==> s.quantity > 0.0 && exists o :: o in orders && o.orderId == s.orderId
    ensures ShipmentProblem(s, orders).Some? ==>
      ShipmentProblem(s, orders).value ==
      if exists o :: o in orders && o.orderId == s.orderId then ShipmentNotPositive else UnknownOrder(s.shipmentId)
  {
    if exists o :: o in orders && o.orderId == s.orderId {
      var o' :| o' in orders && o'.orderId == s.orderId;
      var i :| 0 <= i < |orders| && orders[i] == o';
    }
  }

  ghost predicate ValidOrders(orders: seq<Order>) {
    UniqueOrders(orders) && forall i {:trigger orders[i]} :: 0 <= i < |orders| ==> OrderProblem(orders[i]).None?
  }

  ghost predicate ValidShipments(shipments: seq<Shipment>, orders: seq<Order>) {
    && UniqueShipments(shipments)
    && forall i {:trigger shipments[i]} :: 0 <= i < |shipments| ==> ShipmentProblem(shipments[i], orders).None?
  }

  ghost predicate NoOverShipment(orders: seq<Order>, shipments: seq<Shipment>) {
    forall i {:trigger orders[i]} :: 0 <= i < |orders| ==> Fits(orders[i], shipments)
  }

  predicate Fits(o: Order, shipments: seq<Shipment>) {
    Total(Prepared(o, shipments), QuantityOf) <= o.quantity
  }

  ghost predicate Accepted(orders: seq<Order>, shipments: seq<Shipment>) {
    ValidOrders(orders) && ValidShipments(shipments, orders) && NoOverShipment(orders, shipments)
  }

  /** The input that is accepted, on the fields. */
  lemma AcceptedExactlyWhen(orders: seq<Order>, shipments: seq<Shipment>)
    ensures Accepted(orders, shipments) <==>
      && (forall i, j :: 0 <= i < j < |orders| ==> orders[i].orderId != orders[j].orderId)
      && (forall i, j :: 0 <= i < j < |shipments| ==> shipments[i].shipmentId != shipments[j].shipmentId)
      && (forall o :: o in orders ==> o.quantity > 0.0 && o.unitPrice >= 0.0 && o.deliveryDate >= o.orderDate)
      && (forall s :: s in shipments ==> s.quantity > 0.0 && exists o :: o in orders && o.orderId == s.orderId)
      && forall o :: o in orders ==> Total(Prepared(o, shipments), QuantityOf) <= o.quantity
  {
    hide Prepared;
    forall i | 0 <= i < |orders|
      ensures OrderProblem(orders[i]).None? <==>
        orders[i].quantity > 0.0 && orders[i].unitPrice >= 0.0 && orders[i].deliveryDate >= orders[i].orderDate
    {
    }
    forall i | 0 <= i < |shipments|
      ensures ShipmentProblem(shipments[i], orders).None? <==>
        shipments[i].quantity > 0.0 && exists o :: o in orders && o.orderId == shipments[i].orderId
    {
      if orders != [] {
        RefusedExactlyWhen(orders[0], shipments[i], orders);
      }
    }
  }

  function AllProgress(orders: seq<Order>, shipments: seq<Shipment>, asOf: int): seq<Progress> {
    if orders == [] then []
    else
      var last := orders[|orders| - 1];
      AllProgress(orders[..|orders| - 1], shipments, asOf) + [ProgressOf(last, Prepared(last, shipments), asOf)]
  }

  function AllEntries(orders: seq<Order>, shipments: seq<Shipment>): seq<SalesEntry> {
    if orders == [] then []
    else
      var last := orders[|orders| - 1];
      AllEntries(orders[..|orders| - 1], shipments) + EntriesOf(last, Prepared(last, shipments))
  }

  function ByLine(e: SalesEntry): Key { Key(e.salesDate, e.lineId) }

  // ----- Backlogs by customer -----

  /** The open amount of a progress; one that is not open is in no backlog. */
  function OpenAmount(p: Progress): Money { if p.backlog > 0.0 then p.backlog else 0.0 }

  function BacklogOf(b: CustomerBacklog): Money { b.orderBacklog }

  function AddOpen(backlogs: seq<CustomerBacklog>, p: Progress): seq<CustomerBacklog> {
    if backlogs == [] then [CustomerBacklog(p.customerCode, p.customerName, p.backlog, 1)]
    else if backlogs[0].customerCode == p.customerCode then
      [backlogs[0].(orderBacklog := backlogs[0].orderBacklog + p.backlog, openOrders := backlogs[0].openOrders + 1)]
      + backlogs[1..]
    else [backlogs[0]] + AddOpen(backlogs[1..], p)
  }

  function Backlogs(progresses: seq<Progress>): seq<CustomerBacklog> {
    if progresses == [] then []
    else
      var before, last := Backlogs(progresses[..|progresses| - 1]), progresses[|progresses| - 1];
      if last.backlog > 0.0 then AddOpen(before, last) else before
  }

  function ByCustomer(b: CustomerBacklog): Key { Key(0, b.customerCode) }

  method AddTo(backlogs: seq<CustomerBacklog>, p: Progress) returns (r: seq<CustomerBacklog>)
    ensures r == AddOpen(backlogs, p)
  {
    var j := 0;
    while j < |backlogs| && backlogs[j].customerCode != p.customerCode
      invariant 0 <= j <= |backlogs|
      invariant AddOpen(backlogs, p) == backlogs[..j] + AddOpen(backlogs[j..], p)
    {
      assert backlogs[j..][0] == backlogs[j] && backlogs[j..][1..] == backlogs[j + 1..];
      assert backlogs[..j + 1] == backlogs[..j] + [backlogs[j]];
      j := j + 1;
    }
    if j == |backlogs| {
      r := backlogs + [CustomerBacklog(p.customerCode, p.customerName, p.backlog, 1)];
      assert backlogs[..j] == backlogs && backlogs[j..] == [];
    } else {
      var entry := backlogs[j];
      r := backlogs[j := entry.(orderBacklog := entry.orderBacklog + p.backlog, openOrders := entry.openOrders + 1)];
      assert backlogs[j..][0] == entry && backlogs[j..][1..] == backlogs[j + 1..];
    }
  }

  lemma {:induction false} AddOpenTotal(backlogs: seq<CustomerBacklog>, p: Progress)
    ensures Total(AddOpen(backlogs, p), BacklogOf) == Total(backlogs, BacklogOf) + p.backlog
  {
    if backlogs == [] {
      TotalSnoc([], CustomerBacklog(p.customerCode, p.customerName, p.backlog, 1), BacklogOf);
      assert [] + AddOpen(backlogs, p) == AddOpen(backlogs, p);
    } else {
      var first, rest := backlogs[0], backlogs[1..];
      var first' := first.(orderBacklog := first.orderBacklog + p.backlog, openOrders := first.openOrders + 1);
      assert backlogs == [first] + rest;
      TotalConcat([first], rest, BacklogOf);
      OneTotal(first);
      if first.customerCode == p.customerCode {
        TotalConcat([first'], rest, BacklogOf);
        OneTotal(first');
      } else {
        AddOpenTotal(rest, p);
        TotalConcat([first], AddOpen(rest, p), BacklogOf);
      }
    }
  }

  lemma OneTotal(b: CustomerBacklog)
    ensures Total([b], BacklogOf) == b.orderBacklog
  {
    TotalSnoc([], b, BacklogOf);
    assert [] + [b] == [b];
  }

  /** The reported backlog is the sum of the open amounts, whoever the customers are. */
  lemma {:induction false} BacklogTotal(progresses: seq<Progress>)
    ensures Total(Backlogs(progresses), BacklogOf) == Total(progresses, OpenAmount)
  {
    if progresses != [] {
      var init, last := progresses[..|progresses| - 1], progresses[|progresses| - 1];
      BacklogTotal(init);
      if last.backlog > 0.0 {
        AddOpenTotal(Backlogs(init), last);
      }
    }
  }

  predicate OneEach(backlogs: seq<CustomerBacklog>) {
    forall i, j :: 0 <= i < j < |backlogs| ==> backlogs[i].customerCode != backlogs[j].customerCode
  }

  predicate Listed(backlogs: seq<CustomerBacklog>, code: string) {
    exists i :: 0 <= i < |backlogs| && backlogs[i].customerCode == code
  }

  function OpenOf(code: string): Progress -> Money {
    (p: Progress) => if p.customerCode == code then OpenAmount(p) else 0.0
  }

  function BacklogOfCustomer(code: string): CustomerBacklog -> Money {
    (b: CustomerBacklog) => if b.customerCode == code then b.orderBacklog else 0.0
  }

  /** Adding an open amount lists its customer, and leaves one line each. */
  lemma {:induction false} AddOpenOnce(backlogs: seq<CustomerBacklog>, p: Progress, code: string)
    requires OneEach(backlogs)
    ensures OneEach(AddOpen(backlogs, p))
    ensures Listed(AddOpen(backlogs, p), code) <==> Listed(backlogs, code) || p.customerCode == code
  {
    if backlogs == [] {
      assert AddOpen(backlogs, p)[0].customerCode == p.customerCode;
    } else {
      var first, rest := backlogs[0], backlogs[1..];
      assert backlogs == [first] + rest;
      ListedCons(first, rest, code);
      if first.customerCode == p.customerCode {
        SameCustomers(backlogs, AddOpen(backlogs, p), code);
      } else {
        AddOpenOnce(rest, p, code);
        AddOpenOnce(rest, p, first.customerCode);
        FirstIsApart(first, rest);
        ListedCons(first, AddOpen(rest, p), code);
      }
    }
  }

  lemma FirstIsApart(b: CustomerBacklog, rest: seq<CustomerBacklog>)
    requires OneEach([b] + rest)
    ensures OneEach(rest) && !Listed(rest, b.customerCode)
  {
    assert ([b] + rest)[0] == b;
    assert forall i :: 0 <= i < |rest| ==> ([b] + rest)[i + 1] == rest[i];
  }

  lemma SameCustomers(a: seq<CustomerBacklog>, b: seq<CustomerBacklog>, code: string)
    requires |a| == |b| && OneEach(a) && forall i :: 0 <= i < |a| ==> a[i].customerCode == b[i].customerCode
    ensures OneEach(b) && (Listed(b, code) <==> Listed(a, code))
  {
  }

  lemma {:induction false} AddOpenAmount(backlogs: seq<CustomerBacklog>, p: Progress, code: string)
    ensures Total(AddOpen(backlogs, p), BacklogOfCustomer(code))
         == Total(backlogs, BacklogOfCustomer(code)) + if p.customerCode == code then p.backlog else 0.0
  {
    var f := BacklogOfCustomer(code);
    if backlogs == [] {
      var b := CustomerBacklog(p.customerCode, p.customerName, p.backlog, 1);
      TotalSnoc([], b, f);
      assert [] + [b] == AddOpen(backlogs, p);
    } else {
      var first, rest := backlogs[0], backlogs[1..];
      assert backlogs == [first] + rest;
      TotalCons(first, rest, f);
      if first.customerCode == p.customerCode {
        TotalCons(AddOpen(backlogs, p)[0], rest, f);
      } else {
        AddOpenAmount(rest, p, code);
        TotalCons(first, AddOpen(rest, p), f);
      }
    }
  }

  lemma ListedCons(b: CustomerBacklog, rest: seq<CustomerBacklog>, code: string)
    ensures Listed([b] + rest, code) <==> b.customerCode == code || Listed(rest, code)
    ensures OneEach(rest) && !Listed(rest, b.customerCode) ==> OneEach([b] + rest)
  {
    assert ([b] + rest)[0] == b;
    assert forall i :: 0 <= i < |rest| ==> ([b] + rest)[i + 1] == rest[i];
  }

  lemma TotalCons(b: CustomerBacklog, rest: seq<CustomerBacklog>, f: CustomerBacklog -> Money)
    ensures Total([b] + rest, f) == f(b) + Total(rest, f)
  {
    TotalConcat([b], rest, f);
    TotalSnoc([], b, f);
    assert [] + [b] == [b];
  }

  /** Each customer has one line at most, and it carries that customer's open amounts and no other's. */
  lemma {:induction false} CustomerBacklogs(progresses: seq<Progress>, code: string)
    ensures OneEach(Backlogs(progresses))
    ensures Total(Backlogs(progresses), BacklogOfCustomer(code)) == Total(progresses, OpenOf(code))
  {
    if progresses != [] {
      var init, last := progresses[..|progresses| - 1], progresses[|progresses| - 1];
      CustomerBacklogs(init, code);
      if last.backlog > 0.0 {
        AddOpenOnce(Backlogs(init), last, code);
        AddOpenAmount(Backlogs(init), last, code);
      }
    }
  }

  function OpenFor(code: string): Progress -> bool {
    (p: Progress) => p.customerCode == code && p.backlog > 0.0
  }

  /** What a customer's line says: how many of its orders are open, for how much, and the name on the first of them. */
  ghost predicate IsLine(progresses: seq<Progress>, b: CustomerBacklog) {
    var own := Filter(progresses, OpenFor(b.customerCode));
    && own != [] && b.openOrders == |own| && b.customerName == own[0].customerName
    && b.orderBacklog == Total(own, BacklogIn)
  }

  /** Where a line comes from when an open order is added: it was there, or grew by the order, or starts with it. */
  lemma {:induction false} AddOpenLine(backlogs: seq<CustomerBacklog>, p: Progress, b: CustomerBacklog)
    requires OneEach(backlogs) && b in AddOpen(backlogs, p)
    ensures b.customerCode != p.customerCode ==> b in backlogs
    ensures b.customerCode == p.customerCode ==>
      || (!Listed(backlogs, p.customerCode)
          && b == CustomerBacklog(p.customerCode, p.customerName, p.backlog, 1))
      || exists was :: was in backlogs
           && b == was.(orderBacklog := was.orderBacklog + p.backlog, openOrders := was.openOrders + 1)
  {
    if backlogs != [] {
      var first, rest := backlogs[0], backlogs[1..];
      assert backlogs == [first] + rest;
      ListedCons(first, rest, p.customerCode);
      FirstIsApart(first, rest);
      if first.customerCode == p.customerCode {
        SameCustomers(backlogs, AddOpen(backlogs, p), p.customerCode);
        if b != AddOpen(backlogs, p)[0] {
          assert b in rest;
          var i :| 0 <= i < |rest| && rest[i] == b;
          assert backlogs[i + 1] == b;
        }
      } else if b != first {
        AddOpenLine(rest, p, b);
      }
    }
  }

  lemma LineGrows(progresses: seq<Progress>, p: Progress, was: CustomerBacklog)
    requires p.backlog > 0.0 && IsLine(progresses, was) && was.customerCode == p.customerCode
    ensures IsLine(progresses + [p],
      was.(orderBacklog := was.orderBacklog + p.backlog, openOrders := was.openOrders + 1))
  {
    var own := Filter(progresses, OpenFor(p.customerCode));
    assert (progresses + [p])[..|progresses|] == progresses;
    TotalSnoc(own, p, BacklogIn);
  }

  lemma LineStays(progresses: seq<Progress>, p: Progress, b: CustomerBacklog)
    requires IsLine(progresses, b) && (b.customerCode != p.customerCode || p.backlog <= 0.0)
    ensures IsLine(progresses + [p], b)
  {
    assert (progresses + [p])[..|progresses|] == progresses;
    assert Filter(progresses + [p], OpenFor(b.customerCode)) == Filter(progresses, OpenFor(b.customerCode));
  }

  lemma LineStarts(progresses: seq<Progress>, p: Progress)
    requires p.backlog > 0.0 && Filter(progresses, OpenFor(p.customerCode)) == []
    ensures IsLine(progresses + [p], CustomerBacklog(p.customerCode, p.customerName, p.backlog, 1))
  {
    assert (progresses + [p])[..|progresses|] == progresses;
    TotalSnoc([], p, BacklogIn);
    assert [] + [p] == [p];
  }

  /** Every line of the backlogs says what it should, and every customer with an open order has one. */
  lemma {:induction false} BacklogLines(progresses: seq<Progress>)
    ensures OneEach(Backlogs(progresses))
    ensures forall b :: b in Backlogs(progresses) ==> IsLine(progresses, b)
    ensures forall code :: Listed(Backlogs(progresses), code) <==> Filter(progresses, OpenFor(code)) != []
  {
    if progresses != [] {
      hide IsLine, AddOpen, OneEach;
      var init, last := progresses[..|progresses| - 1], progresses[|progresses| - 1];
      assert progresses == init + [last];
      BacklogLines(init);
      var before := Backlogs(init);
      forall code
        ensures Listed(Backlogs(progresses), code) <==> Filter(progresses, OpenFor(code)) != []
      {
        AddOpenOnce(before, last, code);
      }
      AddOpenOnce(before, last, "");
      forall b | b in Backlogs(progresses)
        ensures IsLine(progresses, b)
      {
        LineAfter(init, last, b);
      }
    }
  }

  lemma LineAfter(init: seq<Progress>, last: Progress, b: CustomerBacklog)
    requires OneEach(Backlogs(init)) && forall x :: x in Backlogs(init) ==> IsLine(init, x)
    requires forall code :: Listed(Backlogs(init), code) <==> Filter(init, OpenFor(code)) != []
    requires b in Backlogs(init + [last])
    ensures IsLine(init + [last], b)
  {
    hide IsLine, AddOpen, OneEach, Listed, Filter;
    assert (init + [last])[..|init|] == init;
    var before := Backlogs(init);
    if last.backlog <= 0.0 {
      LineStays(init, last, b);
    } else {
      AddOpenLine(before, last, b);
      if b.customerCode != last.customerCode {
        LineStays(init, last, b);
      } else if !Listed(before, last.customerCode)
             && b == CustomerBacklog(last.customerCode, last.customerName, last.backlog, 1) {
        LineStarts(init, last);
      } else {
        var was :| was in before
          && b == was.(orderBacklog := was.orderBacklog + last.backlog, openOrders := was.openOrders + 1);
        LineGrows(init, last, was);
      }
    }
  }

  // ----- The result -----

  function RecognizedIn(p: Progress): Money { p.recognized }
  function BacklogIn(p: Progress): Money { p.backlog }
  function OrderAmountIn(p: Progress): Money { p.orderAmount }

  function DelayedIds(progresses: seq<Progress>): seq<string> {
    if progresses == [] then []
    else
      var before, last := DelayedIds(progresses[..|progresses| - 1]), progresses[|progresses| - 1];
      if last.delayDays > 0 then before + [last.orderId] else before
  }

  function OnHoldIds(progresses: seq<Progress>): seq<string> {
    if progresses == [] then []
    else
      var before, last := OnHoldIds(progresses[..|progresses| - 1]), progresses[|progresses| - 1];
      if last.status == OnHold then before + [last.orderId] else before
  }

  function ResultOf(orders: seq<Order>, shipments: seq<Shipment>, asOf: int): Fulfillment {
    var progresses := AllProgress(orders, shipments, asOf);
    var backlogs := SortBy(Backlogs(progresses), ByCustomer);
    Fulfillment(
      progresses, SortBy(AllEntries(orders, shipments), ByLine), backlogs, Total(progresses, RecognizedIn),
      Total(backlogs, BacklogOf), DelayedIds(progresses), OnHoldIds(progresses))
  }

  /** The late orders and the held ones, in the order of the progresses. */
  lemma {:induction false} ListedIds(progresses: seq<Progress>)
    ensures forall id :: id in DelayedIds(progresses) <==>
      exists p :: p in progresses && p.delayDays > 0 && p.orderId == id
    ensures forall id :: id in OnHoldIds(progresses) <==>
      exists p :: p in progresses && p.status == OnHold && p.orderId == id
    ensures forall n :: 0 <= n < |progresses| ==>
      DelayedIds(progresses[..n]) <= DelayedIds(progresses) && OnHoldIds(progresses[..n]) <= OnHoldIds(progresses)
  {
    if progresses != [] {
      var init := progresses[..|progresses| - 1];
      assert progresses == init + [progresses[|progresses| - 1]];
      ListedIds(init);
      forall n | 0 <= n < |progresses|
        ensures DelayedIds(progresses[..n]) <= DelayedIds(progresses)
        ensures OnHoldIds(progresses[..n]) <= OnHoldIds(progresses)
      {
        assert n < |init| ==> init[..n] == progresses[..n];
      }
    }
  }

  ghost predicate SoldFirst(a: SalesEntry, b: SalesEntry) {
    a.salesDate < b.salesDate || (a.salesDate == b.salesDate && TextLeq(a.lineId, b.lineId))
  }

  /** The sales of all orders together are ordered by date and then by line, the backlogs by customer. */
  lemma ResultIsOrdered(orders: seq<Order>, shipments: seq<Shipment>, asOf: int)
    ensures
      var r := ResultOf(orders, shipments, asOf);
      && multiset(r.salesEntries) == multiset(AllEntries(orders, shipments))
      && (forall i, j :: 0 <= i < j < |r.salesEntries| ==> SoldFirst(r.salesEntries[i], r.salesEntries[j]))
      && multiset(r.backlogs) == multiset(Backlogs(r.orders))
      && (forall i, j :: 0 <= i < j < |r.backlogs| ==>
            TextLeq(r.backlogs[i].customerCode, r.backlogs[j].customerCode))
  {
    var r := ResultOf(orders, shipments, asOf);
    var entries, open := AllEntries(orders, shipments), Backlogs(r.orders);
    SortBySorted(entries, ByLine);
    SortBySorted(open, ByCustomer);
    forall i, j | 0 <= i < j < |r.salesEntries|
      ensures SoldFirst(r.salesEntries[i], r.salesEntries[j])
    {
      assert KeyLeq(ByLine(r.salesEntries[i]), ByLine(r.salesEntries[j]));
    }
    forall i, j | 0 <= i < j < |r.backlogs|
      ensures TextLeq(r.backlogs[i].customerCode, r.backlogs[j].customerCode)
    {
      assert KeyLeq(ByCustomer(r.backlogs[i]), ByCustomer(r.backlogs[j]));
    }
  }

  /** The complaint about the first order that has one. */
  ghost predicate FirstOrderProblem(orders: seq<Order>, e: FulfillmentError) {
    exists i :: 0 <= i < |orders| && OrderProblem(orders[i]) == Some(e)
      && forall j {:trigger orders[j]} :: 0 <= j < i ==> OrderProblem(orders[j]).None?
  }

  /** The complaint about the first shipment that has one. */
  ghost predicate FirstShipmentProblem(shipments: seq<Shipment>, orders: seq<Order>, e: FulfillmentError) {
    exists i :: 0 <= i < |shipments| && ShipmentProblem(shipments[i], orders) == Some(e)
      && forall j {:trigger shipments[j]} :: 0 <= j < i ==> ShipmentProblem(shipments[j], orders).None?
  }

  method CheckOrders(orders: seq<Order>) returns (problem: Option<FulfillmentError>)
    ensures problem.None? <==> forall i {:trigger orders[i]} :: 0 <= i < |orders| ==> OrderProblem(orders[i]).None?
    ensures problem.Some? ==> FirstOrderProblem(orders, problem.value)
  {
    for i := 0 to |orders|
      invariant forall j {:trigger orders[j]} :: 0 <= j < i ==> OrderProblem(orders[j]).None?
    {
      if OrderProblem(orders[i]).Some? {
        return OrderProblem(orders[i]);
      }
    }
    return None;
  }

  /** The shipments seen so far, by order. */
  ghost predicate GroupedBy(shipments: seq<Shipment>, grouped: map<string, seq<Shipment>>) {
    forall id: string {:trigger Own(grouped, id)} :: Own(grouped, id) == Filter(shipments, ForOrder(id))
  }

  function Own(grouped: map<string, seq<Shipment>>, id: string): seq<Shipment> {
    if id in grouped then grouped[id] else []
  }

  lemma GroupedMore(shipments: seq<Shipment>, s: Shipment, grouped: map<string, seq<Shipment>>)
    requires GroupedBy(shipments, grouped)
    ensures GroupedBy(shipments + [s], grouped[s.orderId := Own(grouped, s.orderId) + [s]])
  {
    assert (shipments + [s])[..|shipments|] == shipments;
    var grouped' := grouped[s.orderId := Own(grouped, s.orderId) + [s]];
    forall id: string
      ensures Own(grouped', id) == Filter(shipments + [s], ForOrder(id))
    {
      assert Own(grouped, id) == Filter(shipments, ForOrder(id));
      assert Own(grouped', id) == if id == s.orderId then Own(grouped, id) + [s] else Own(grouped, id);
    }
  }

  method GroupShipments(shipments: seq<Shipment>, orders: seq<Order>)
    returns (r: Result<map<string, seq<Shipment>>, FulfillmentError>)
    ensures r.Ok? <==>
      forall i {:trigger shipments[i]} :: 0 <= i < |shipments| ==> ShipmentProblem(shipments[i], orders).None?
    ensures r.Ok? ==> GroupedBy(shipments, r.value)
    ensures r.Err? ==> FirstShipmentProblem(shipments, orders, r.error)
  {
    var grouped: map<string, seq<Shipment>> := map[];
    var i := 0;
    while i < |shipments|
      invariant 0 <= i <= |shipments|
      invariant forall j {:trigger shipments[j]} :: 0 <= j < i ==> ShipmentProblem(shipments[j], orders).None?
      invariant GroupedBy(shipments[..i], grouped)
    {
      var s := shipments[i];
      if ShipmentProblem(s, orders).Some? {
        return Err(ShipmentProblem(s, orders).value);
      }
      assert shipments[..i + 1] == shipments[..i] + [s];
      GroupedMore(shipments[..i], s, grouped);
      grouped := grouped[s.orderId := Own(grouped, s.orderId) + [s]];
      i := i + 1;
    }
    assert shipments[..i] == shipments;
    return Ok(grouped);
  }

  lemma PreparedArePositive(o: Order, shipments: seq<Shipment>)
    requires forall i :: 0 <= i < |shipments| ==> shipments[i].quantity > 0.0
    ensures AllPositive(Prepared(o, shipments))
  {
    var own := Filter(shipments, ForOrder(o.orderId));
    FilterMembers(shipments, ForOrder(o.orderId));
    SortMembers(own, ByDate);
    forall i | 0 <= i < |Prepared(o, shipments)|
      ensures Prepared(o, shipments)[i].quantity > 0.0
    {
      assert Prepared(o, shipments)[i] in own;
    }
  }

  /** The first order that is exceeded, named by the shipment that exceeds it. */
  ghost predicate FirstOrderExceeded(orders: seq<Order>, shipments: seq<Shipment>, e: FulfillmentError) {
    && e.OverShipment?
    && exists i {:trigger orders[i]} :: 0 <= i < |orders| && NoOverShipment(orders[..i], shipments)
         && ExceedsAt(orders[i], Prepared(orders[i], shipments), e.shipmentId)
  }

  method OwnShipments(o: Order, ghost shipments: seq<Shipment>, grouped: map<string, seq<Shipment>>)
    returns (own: seq<Shipment>)
    requires GroupedBy(shipments, grouped)
    ensures own == Prepared(o, shipments)
  {
    own := SortBy(Own(grouped, o.orderId), ByDate);
  }

  lemma AllSnoc(orders: seq<Order>, o: Order, shipments: seq<Shipment>, asOf: int)
    ensures AllProgress(orders + [o], shipments, asOf)
         == AllProgress(orders, shipments, asOf) + [ProgressOf(o, Prepared(o, shipments), asOf)]
    ensures AllEntries(orders + [o], shipments) == AllEntries(orders, shipments) + EntriesOf(o, Prepared(o, shipments))
    ensures NoOverShipment(orders + [o], shipments) <==> NoOverShipment(orders, shipments) && Fits(o, shipments)
  {
    assert (orders + [o])[..|orders|] == orders;
    assert (orders + [o])[|orders|] == o;
    assert forall i :: 0 <= i < |orders| ==> (orders + [o])[i] == orders[i];
  }

  method ProcessOrders(
    orders: seq<Order>, shipments: seq<Shipment>, grouped: map<string, seq<Shipment>>, asOf: int)
    returns (r: Result<(seq<Progress>, seq<SalesEntry>), FulfillmentError>)
    requires ValidOrders(orders) && ValidShipments(shipments, orders) && GroupedBy(shipments, grouped)
    ensures r.Ok? <==> NoOverShipment(orders, shipments)
    ensures r.Ok? ==> r.value == (AllProgress(orders, shipments, asOf), AllEntries(orders, shipments))
    ensures r.Err? ==> FirstOrderExceeded(orders, shipments, r.error)
  {
    hide Prepared, ProgressOf, EntriesOf, GroupedBy, ExceedsAt;
    var progresses: seq<Progress>, entries: seq<SalesEntry> := [], [];
    var i := 0;
    while i < |orders|
      invariant 0 <= i <= |orders|
      invariant NoOverShipment(orders[..i], shipments)
      invariant progresses == AllProgress(orders[..i], shipments, asOf)
      invariant entries == AllEntries(orders[..i], shipments)
    {
      var o := orders[i];
      PreparedArePositive(o, shipments);
      var own := OwnShipments(o, shipments, grouped);
      AllSnoc(orders[..i], o, shipments, asOf);
      assert orders[..i + 1] == orders[..i] + [o];
      var processed := ProcessOrder(o, own, asOf);
      if processed.Err? {
        assert !Fits(orders[i], shipments);
        return Err(processed.error);
      }
      progresses := progresses + [processed.value.0];
      entries := entries + processed.value.1;
      i := i + 1;
    }
    assert orders[..i] == orders;
    return Ok((progresses, entries));
  }

  method Process(asOf: int, orders: seq<Order>, shipments: seq<Shipment>)
    returns (r: Result<Fulfillment, FulfillmentError>)
    ensures r.Ok? <==> Accepted(orders, shipments)
    ensures r.Ok? ==> r.value == ResultOf(orders, shipments, asOf)
    ensures (exists i, j :: 0 <= i < j < |orders| && orders[i].orderId == orders[j].orderId) ==>
      r == Err(DuplicateOrder)
    ensures UniqueOrders(orders) ==>
      (exists i, j :: 0 <= i < j < |shipments| && shipments[i].shipmentId == shipments[j].shipmentId) ==>
      r == Err(DuplicateShipment)
    ensures UniqueOrders(orders) && UniqueShipments(shipments) && !ValidOrders(orders) ==>
      r.Err? && FirstOrderProblem(orders, r.error)
    ensures UniqueShipments(shipments) && ValidOrders(orders) && !ValidShipments(shipments, orders) ==>
      r.Err? && FirstShipmentProblem(shipments, orders, r.error)
    ensures ValidOrders(orders) && ValidShipments(shipments, orders) && r.Err? ==>
      FirstOrderExceeded(orders, shipments, r.error)
  {
    if !UniqueOrders(orders) {
      return Err(DuplicateOrder);
    }
    if !UniqueShipments(shipments) {
      return Err(DuplicateShipment);
    }
    var problem := CheckOrders(orders);
    if problem.Some? {
      return Err(problem.value);
    }
    var grouped := GroupShipments(shipments, orders);
    if grouped.Err? {
      return Err(grouped.error);
    }
    var processed := ProcessOrders(orders, shipments, grouped.value, asOf);
    if processed.Err? {
      return Err(processed.error);
    }
    var progresses := processed.value.0;
    var open := OpenBacklogs(progresses);
    var backlogs := SortBy(open, ByCustomer);
    var result := Fulfillment(
      progresses, SortBy(processed.value.1, ByLine), backlogs, Total(progresses, RecognizedIn),
      Total(backlogs, BacklogOf), DelayedIds(progresses), OnHoldIds(progresses));
    return Ok(result);
  }

  method OpenBacklogs(progresses: seq<Progress>) returns (backlogs: seq<CustomerBacklog>)
    ensures backlogs == Backlogs(progresses)
  {
    backlogs := [];
    var i := 0;
    while i < |progresses|
      invariant 0 <= i <= |progresses|
      invariant backlogs == Backlogs(progresses[..i])
    {
      assert progresses[..i + 1][..i] == progresses[..i];
      if progresses[i].backlog > 0.0 {
        backlogs := AddTo(backlogs, progresses[i]);
      }
      i := i + 1;
    }
    assert progresses[..i] == progresses;
  }

  // ----- What the result guarantees -----

  lemma {:induction false} ProgressSums(orders: seq<Order>, shipments: seq<Shipment>, asOf: int)
    ensures
      var progresses := AllProgress(orders, shipments, asOf);
      && Total(progresses, OrderAmountIn) == Total(progresses, RecognizedIn) + Total(progresses, BacklogIn)
      && Total(progresses, OrderAmountIn) == Total(orders, OrderAmount)
  {
    if orders != [] {
      var init, last := orders[..|orders| - 1], orders[|orders| - 1];
      ProgressSums(init, shipments, asOf);
      var p := ProgressOf(last, Prepared(last, shipments), asOf);
      TotalSnoc(AllProgress(init, shipments, asOf), p, OrderAmountIn);
      TotalSnoc(AllProgress(init, shipments, asOf), p, RecognizedIn);
      TotalSnoc(AllProgress(init, shipments, asOf), p, BacklogIn);
    }
  }

  lemma {:induction false} EntrySums(orders: seq<Order>, shipments: seq<Shipment>, asOf: int)
    ensures Total(AllEntries(orders, shipments), AmountOf) == Total(AllProgress(orders, shipments, asOf), RecognizedIn)
  {
    if orders != [] {
      var init, last := orders[..|orders| - 1], orders[|orders| - 1];
      EntrySums(init, shipments, asOf);
      EntriesAddUp(last, Prepared(last, shipments));
      TotalConcat(AllEntries(init, shipments), EntriesOf(last, Prepared(last, shipments)), AmountOf);
      TotalSnoc(AllProgress(init, shipments, asOf), ProgressOf(last, Prepared(last, shipments), asOf), RecognizedIn);
    }
  }

  lemma {:induction false} OpenTotal(progresses: seq<Progress>)
    ensures Total(progresses, BacklogIn) <= Total(progresses, OpenAmount)
    ensures Total(progresses, BacklogIn) == Total(progresses, OpenAmount)
       <==> forall i :: 0 <= i < |progresses| ==> progresses[i].backlog >= 0.0
  {
    if progresses != [] {
      var init := progresses[..|progresses| - 1];
      OpenTotal(init);
      assert forall i :: 0 <= i < |init| ==> init[i] == progresses[i];
    }
  }

  lemma {:induction false} ProgressAt(orders: seq<Order>, shipments: seq<Shipment>, asOf: int, i: nat)
    requires i < |orders|
    ensures |AllProgress(orders, shipments, asOf)| == |orders|
    ensures AllProgress(orders, shipments, asOf)[i] == ProgressOf(orders[i], Prepared(orders[i], shipments), asOf)
  {
    hide ProgressOf, Prepared;
    var init := orders[..|orders| - 1];
    if i < |init| {
      ProgressAt(init, shipments, asOf, i);
    } else if init != [] {
      ProgressAt(init, shipments, asOf, 0);
    }
  }

  /** No order's shipments cost more than the order before they fill it. */
  ghost predicate AllWithinAmount(orders: seq<Order>, shipments: seq<Shipment>) {
    forall i {:trigger orders[i]} :: 0 <= i < |orders| ==> WithinAmount(orders[i], Prepared(orders[i], shipments))
  }

  ghost predicate AllLastSalesFit(orders: seq<Order>, shipments: seq<Shipment>) {
    forall i {:trigger orders[i]} :: 0 <= i < |orders| ==> LastSaleFits(orders[i], Prepared(orders[i], shipments))
  }

  lemma AcceptedIsPrepared(orders: seq<Order>, shipments: seq<Shipment>, i: nat)
    requires Accepted(orders, shipments) && i < |orders|
    ensures AllPositive(Prepared(orders[i], shipments))
    ensures Total(Prepared(orders[i], shipments), QuantityOf) <= orders[i].quantity
    ensures orders[i].quantity > 0.0 && orders[i].unitPrice >= 0.0
  {
    forall j | 0 <= j < |shipments|
      ensures shipments[j].quantity > 0.0
    {
      assert ShipmentProblem(shipments[j], orders).None?;
    }
    PreparedArePositive(orders[i], shipments);
    assert OrderProblem(orders[i]).None? && Fits(orders[i], shipments);
  }

  /** On accepted input no order has a negative backlog exactly when all are within their amount. */
  lemma NoBacklogIsNegativeExactlyWhen(orders: seq<Order>, shipments: seq<Shipment>, asOf: int)
    requires Accepted(orders, shipments)
    ensures AllWithinAmount(orders, shipments) <==>
      var p := AllProgress(orders, shipments, asOf);
      forall i :: 0 <= i < |p| ==> p[i].backlog >= 0.0
  {
    var p := AllProgress(orders, shipments, asOf);
    if orders != [] {
      ProgressAt(orders, shipments, asOf, 0);
    }
    forall i | 0 <= i < |orders|
      ensures i < |p| && (WithinAmount(orders[i], Prepared(orders[i], shipments)) <==> p[i].backlog >= 0.0)
    {
      ProgressAt(orders, shipments, asOf, i);
      AcceptedIsPrepared(orders, shipments, i);
      BacklogIsNotNegativeExactlyWhen(orders[i], Prepared(orders[i], shipments), asOf);
    }
  }

  lemma NoneNegativeConcat(a: seq<SalesEntry>, b: seq<SalesEntry>)
    ensures NoneNegative(a + b) <==> NoneNegative(a) && NoneNegative(b)
  {
    assert forall i :: 0 <= i < |a| ==> (a + b)[i] == a[i];
    assert forall i :: 0 <= i < |b| ==> (a + b)[|a| + i] == b[i];
  }

  ghost predicate EachReady(orders: seq<Order>, shipments: seq<Shipment>) {
    forall i {:trigger orders[i]} :: 0 <= i < |orders| ==>
      && AllPositive(Prepared(orders[i], shipments)) && orders[i].unitPrice >= 0.0
      && Total(Prepared(orders[i], shipments), QuantityOf) <= orders[i].quantity
  }

  lemma {:induction false} EntriesNotNegative(orders: seq<Order>, shipments: seq<Shipment>)
    requires EachReady(orders, shipments)
    ensures NoneNegative(AllEntries(orders, shipments)) <==> AllLastSalesFit(orders, shipments)
  {
    hide Prepared, EntriesOf, LastSaleFits, AllPositive;
    if orders != [] {
      var init, last := orders[..|orders| - 1], orders[|orders| - 1];
      assert forall i :: 0 <= i < |init| ==> init[i] == orders[i];
      EntriesNotNegative(init, shipments);
      SaleIsNotNegativeExactlyWhen(last, Prepared(last, shipments));
      NoneNegativeConcat(AllEntries(init, shipments), EntriesOf(last, Prepared(last, shipments)));
    }
  }

  lemma NoneNegativeSorted(entries: seq<SalesEntry>)
    ensures NoneNegative(SortBy(entries, ByLine)) <==> NoneNegative(entries)
  {
    var sorted := SortBy(entries, ByLine);
    SortMembers(entries, ByLine);
    forall i | 0 <= i < |sorted|
      ensures sorted[i] in entries
    {
      assert sorted[i] in sorted;
    }
    forall i | 0 <= i < |entries|
      ensures entries[i] in sorted
    {
      assert entries[i] in entries;
    }
  }

  /** On accepted input no sales entry is negative exactly when no order is overrun before its last shipment. */
  lemma NoSaleIsNegativeExactlyWhen(orders: seq<Order>, shipments: seq<Shipment>, asOf: int)
    requires Accepted(orders, shipments)
    ensures NoneNegative(ResultOf(orders, shipments, asOf).salesEntries) <==> AllLastSalesFit(orders, shipments)
  {
    forall i | 0 <= i < |orders|
      ensures AllPositive(Prepared(orders[i], shipments)) && orders[i].unitPrice >= 0.0
      ensures Total(Prepared(orders[i], shipments), QuantityOf) <= orders[i].quantity
    {
      AcceptedIsPrepared(orders, shipments, i);
    }
    EntriesNotNegative(orders, shipments);
    NoneNegativeSorted(AllEntries(orders, shipments));
  }

  /**
    * Over all orders, what is recognised and what is left make up the order amounts, and the sales entries are what
    * is recognised. The reported total backlog is what is left exactly when no order has a negative backlog, and is
    * more than that otherwise; on accepted input this is when every order not filled is within its amount.
    */
  lemma OrdersAreConserved(orders: seq<Order>, shipments: seq<Shipment>, asOf: int)
    ensures
      var r := ResultOf(orders, shipments, asOf);
      && Total(r.salesEntries, AmountOf) == r.totalRecognized
      && r.totalRecognized + Total(r.orders, BacklogIn) == Total(orders, OrderAmount)
      && r.totalBacklog >= Total(r.orders, BacklogIn)
      && (r.totalRecognized + r.totalBacklog == Total(orders, OrderAmount)
          <==> forall i :: 0 <= i < |r.orders| ==> r.orders[i].backlog >= 0.0)
      && (Accepted(orders, shipments) ==>
            (r.totalRecognized + r.totalBacklog == Total(orders, OrderAmount) <==> AllWithinAmount(orders, shipments)))
  {
    var progresses := AllProgress(orders, shipments, asOf);
    ProgressSums(orders, shipments, asOf);
    EntrySums(orders, shipments, asOf);
    TotalPermutation(SortBy(AllEntries(orders, shipments), ByLine), AllEntries(orders, shipments), AmountOf);
    TotalPermutation(SortBy(Backlogs(progresses), ByCustomer), Backlogs(progresses), BacklogOf);
    BacklogTotal(progresses);
    OpenTotal(progresses);
    if Accepted(orders, shipments) {
      NoBacklogIsNegativeExactlyWhen(orders, shipments, asOf);
    }
  }

  // ----- The order of the shipments does not matter -----

  lemma IdsDistinguish(o: Order, shipments: seq<Shipment>)
    requires UniqueShipments(shipments)
    ensures KeysDistinguish(Filter(shipments, ForOrder(o.orderId)), ByDate)
  {
    var own := Filter(shipments, ForOrder(o.orderId));
    FilterMembers(shipments, ForOrder(o.orderId));
    forall i, j | 0 <= i < |own| && 0 <= j < |own| && ByDate(own[i]) == ByDate(own[j])
      ensures own[i] == own[j]
    {
      assert own[i] in shipments && own[j] in shipments;
    }
  }

  lemma PreparedForgetsOrder(o: Order, a: seq<Shipment>, b: seq<Shipment>)
    requires multiset(a) == multiset(b) && UniqueShipments(a)
    ensures Prepared(o, a) == Prepared(o, b)
  {
    FilterPermutation(a, b, ForOrder(o.orderId));
    IdsDistinguish(o, a);
    SortForgetsOrder(Filter(a, ForOrder(o.orderId)), Filter(b, ForOrder(o.orderId)), ByDate);
  }

  lemma {:induction false} ResultForgetsOrder(orders: seq<Order>, a: seq<Shipment>, b: seq<Shipment>, asOf: int)
    requires multiset(a) == multiset(b) && UniqueShipments(a)
    ensures AllProgress(orders, a, asOf) == AllProgress(orders, b, asOf)
    ensures AllEntries(orders, a) == AllEntries(orders, b)
  {
    if orders != [] {
      ResultForgetsOrder(orders[..|orders| - 1], a, b, asOf);
      PreparedForgetsOrder(orders[|orders| - 1], a, b);
    }
  }

  lemma UniqueForgetsOrder(a: seq<Shipment>, b: seq<Shipment>)
    requires multiset(a) == multiset(b) && UniqueShipments(a)
    ensures UniqueShipments(b)
  {
    DistinctPermutation(a, b);
    forall i, j | 0 <= i < j < |b|
      ensures b[i].shipmentId != b[j].shipmentId
    {
      assert b[i] in multiset(b) && b[j] in multiset(b);
      assert b[i] in a && b[j] in a;
    }
  }

  /** Shuffling the list of shipments changes neither whether it is accepted nor anything in the result. */
  lemma ShipmentOrderDoesNotMatter(orders: seq<Order>, a: seq<Shipment>, b: seq<Shipment>, asOf: int)
    requires multiset(a) == multiset(b) && Accepted(orders, a)
    ensures Accepted(orders, b) && ResultOf(orders, a, asOf) == ResultOf(orders, b, asOf)
  {
    UniqueForgetsOrder(a, b);
    ResultForgetsOrder(orders, a, b, asOf);
    forall i | 0 <= i < |b|
      ensures ShipmentProblem(b[i], orders).None?
    {
      assert b[i] in multiset(b);
      assert b[i] in a;
    }
    forall i | 0 <= i < |orders|
      ensures Fits(orders[i], b)
    {
      PreparedForgetsOrder(orders[i], a, b);
    }
  }
}
