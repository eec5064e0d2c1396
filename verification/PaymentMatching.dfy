/** Matching bank withdrawals against expected payments in three stages, the surest first. */
module PaymentMatching {
  import opened Wrappers
  import opened Sums
  import opened Lists
  import opened SubsetSum

  const MAX_SUBSET_STATES := 200000

  datatype Payment = Payment(id: string, payee: string, amount: Money, date: int)

  datatype Withdrawal = Withdrawal(id: string, date: int, amount: Money, description: string)

  datatype Stage = Exact | Aggregate | FeeAdjusted

  datatype Match = Match(
    lineId: string, paymentIds: seq<string>, withdrawn: Money, matched: Money, difference: Money, stage: Stage)

  datatype MatchResult = MatchResult(
    matches: seq<Match>, unmatchedLineIds: seq<string>, unmatchedPaymentIds: seq<string>, matchedCount: nat,
    matchedTotal: Money, unmatchedWithdrawalTotal: Money, unmatchedPaymentTotal: Money, fullyReconciled: bool)

  datatype MatchError =
    | NegativeDateTolerance | NegativeFeeTolerance | NonPositiveWithdrawal | NonPositivePayment
    | DuplicatePaymentId | DuplicateLineId

  datatype Tolerance = Tolerance(days: int, fee: Money)

  function PaymentIds(payments: seq<Payment>): (ids: seq<string>)
    ensures |ids| == |payments| && forall i :: 0 <= i < |ids| ==> ids[i] == payments[i].id
  {
    seq(|payments|, i requires 0 <= i < |payments| => payments[i].id)
  }

  function LineIds(ws: seq<Withdrawal>): (ids: seq<string>)
    ensures |ids| == |ws| && forall i :: 0 <= i < |ids| ==> ids[i] == ws[i].id
  {
    seq(|ws|, i requires 0 <= i < |ws| => ws[i].id)
  }

  function Validate(withdrawals: seq<Withdrawal>, payments: seq<Payment>, tol: Tolerance): Option<MatchError> {
    if tol.days < 0 then Some(NegativeDateTolerance)
    else if tol.fee < 0.0 then Some(NegativeFeeTolerance)
    else if exists w :: w in withdrawals && w.amount <= 0.0 then Some(NonPositiveWithdrawal)
    else if exists p :: p in payments && p.amount <= 0.0 then Some(NonPositivePayment)
    else if !Distinct(PaymentIds(payments)) then Some(DuplicatePaymentId)
    else if !Distinct(LineIds(withdrawals)) then Some(DuplicateLineId)
    else None
  }

  ghost predicate PaymentsAreTold(payments: seq<Payment>) {
    forall i, j :: 0 <= i < j < |payments| ==> payments[i].id != payments[j].id
  }

  ghost predicate LinesAreTold(withdrawals: seq<Withdrawal>) {
    forall i, j :: 0 <= i < j < |withdrawals| ==> withdrawals[i].id != withdrawals[j].id
  }

  /** What is refused, and that each complaint comes only when all those before it do not apply. */
  lemma RefusedExactlyWhen(withdrawals: seq<Withdrawal>, payments: seq<Payment>, tol: Tolerance)
    ensures Validate(withdrawals, payments, tol).None? <==>
      && tol.days >= 0 && tol.fee >= 0.0
      && (forall i :: 0 <= i < |withdrawals| ==> withdrawals[i].amount > 0.0)
      && (forall i :: 0 <= i < |payments| ==> payments[i].amount > 0.0)
      && PaymentsAreTold(payments) && LinesAreTold(withdrawals)
    ensures
      var e := Validate(withdrawals, payments, tol);
      && (e == Some(NegativeDateTolerance) <==> tol.days < 0)
      && (e == Some(NegativeFeeTolerance) <==> tol.days >= 0 && tol.fee < 0.0)
      && (e == Some(NonPositiveWithdrawal) ==>
            tol.days >= 0 && tol.fee >= 0.0 && exists w :: w in withdrawals && w.amount <= 0.0)
      && (e == Some(NonPositivePayment) ==>
            && tol.days >= 0 && tol.fee >= 0.0 && (forall i :: 0 <= i < |withdrawals| ==> withdrawals[i].amount > 0.0)
            && exists p :: p in payments && p.amount <= 0.0)
      && (e == Some(DuplicatePaymentId) ==>
            && tol.days >= 0 && tol.fee >= 0.0 && (forall i :: 0 <= i < |withdrawals| ==> withdrawals[i].amount > 0.0)
            && (forall i :: 0 <= i < |payments| ==> payments[i].amount > 0.0)
            && !PaymentsAreTold(payments))
      && (e == Some(DuplicateLineId) ==>
            && tol.days >= 0 && tol.fee >= 0.0 && (forall i :: 0 <= i < |withdrawals| ==> withdrawals[i].amount > 0.0)
            && (forall i :: 0 <= i < |payments| ==> payments[i].amount > 0.0)
            && PaymentsAreTold(payments) && !LinesAreTold(withdrawals))
  {
    var ids, names := PaymentIds(payments), LineIds(withdrawals);
    assert PaymentsAreTold(payments) <==> Distinct(ids);
    assert LinesAreTold(withdrawals) <==> Distinct(names);
  }

  ghost predicate Admissible(payments: seq<Payment>) {
    Distinct(PaymentIds(payments)) && forall i :: 0 <= i < |payments| ==> payments[i].amount > 0.0
  }

  // ----- One withdrawal, one stage -----

  predicate WithinDate(w: Withdrawal, p: Payment, days: int) {
    -days <= w.date - p.date <= days
  }

  function Abs(x: Money): Money { if x < 0.0 then -x else x }

  function OpenNear(w: Withdrawal, open: map<string, Payment>, days: int): Payment -> bool {
    (p: Payment) => p.id in open && WithinDate(w, p, days)
  }

  function EqualTo(w: Withdrawal): Payment -> bool {
    (p: Payment) => p.amount == w.amount
  }

  function Near(w: Withdrawal, fee: Money): Payment -> bool {
    (p: Payment) => Abs(w.amount - p.amount) <= fee
  }

  /** The payments still open near the date of the withdrawal, in their original order. */
  function Candidates(w: Withdrawal, payments: seq<Payment>, open: map<string, Payment>, days: int): seq<Payment> {
    Filter(payments, OpenNear(w, open, days))
  }

  function ToItems(ps: seq<Payment>): (items: seq<Item>)
    ensures |items| == |ps| && forall i :: 0 <= i < |items| ==> items[i] == Item(ps[i].id, ps[i].amount)
  {
    seq(|ps|, i requires 0 <= i < |ps| => Item(ps[i].id, ps[i].amount))
  }

  /** The only payment satisfying `p`, when there is exactly one. */
  function Only(ps: seq<Payment>, p: Payment -> bool): Option<seq<string>> {
    var found := Filter(ps, p);
    if |found| == 1 then Some([found[0].id]) else None
  }

  /** The payments a stage assigns to a withdrawal, if any. */
  ghost function Pick(stage: Stage, w: Withdrawal, ps: seq<Payment>, fee: Money): Option<seq<string>> {
    match stage
    case Exact => Only(ps, EqualTo(w))
    case Aggregate =>
      var items := ToItems(ps);
      if |items| <= MAX_SUBSET_CANDIDATES && |Table(items, w.amount)| <= MAX_SUBSET_STATES && Finds(items, w.amount)
      then Lookup(Table(items, w.amount), w.amount) else None
    case FeeAdjusted => if fee > 0.0 then Only(ps, Near(w, fee)) else None
  }

  method PickStep(stage: Stage, w: Withdrawal, ps: seq<Payment>, fee: Money) returns (r: Option<seq<string>>)
    ensures r == Pick(stage, w, ps, fee)
  {
    match stage {
      case Exact => r := Only(ps, EqualTo(w));
      case Aggregate => r := FindSubset(w.amount, ToItems(ps), Some(MAX_SUBSET_STATES));
      case FeeAdjusted => r := if fee > 0.0 then Only(ps, Near(w, fee)) else None;
    }
  }

  // ----- The books of a run -----

  datatype Books = Books(matches: seq<Match>, left: seq<Withdrawal>, open: map<string, Payment>)

  function OpenAmount(open: map<string, Payment>, ids: seq<string>): Money {
    if ids == [] then 0.0
    else
      var id := ids[|ids| - 1];
      OpenAmount(open, ids[..|ids| - 1]) + if id in open then open[id].amount else 0.0
  }

  function Without(open: map<string, Payment>, ids: seq<string>): map<string, Payment> {
    open - set id | id in ids
  }

  function Commit(b: Books, w: Withdrawal, ids: seq<string>, stage: Stage): Books {
    var matched := OpenAmount(b.open, ids);
    Books(b.matches + [Match(w.id, ids, w.amount, matched, w.amount - matched, stage)], b.left, Without(b.open, ids))
  }

  ghost function Visit(stage: Stage, payments: seq<Payment>, tol: Tolerance, b: Books, w: Withdrawal): Books {
    var picked := Pick(stage, w, Candidates(w, payments, b.open, tol.days), tol.fee);
    if picked.None? then b.(left := b.left + [w]) else Commit(b, w, picked.value, stage)
  }

  /** One stage visits the withdrawals the previous one left, in order. */
  ghost function VisitAll(stage: Stage, payments: seq<Payment>, tol: Tolerance, b: Books, ws: seq<Withdrawal>): Books
    decreases |ws|
  {
    if ws == [] then b
    else VisitAll(stage, payments, tol, Visit(stage, payments, tol, b, ws[0]), ws[1..])
  }

  method CommitStep(b: Books, w: Withdrawal, ids: seq<string>, stage: Stage) returns (r: Books)
    ensures r == Commit(b, w, ids, stage)
  {
    var matched := 0.0;
    for i := 0 to |ids|
      invariant matched == OpenAmount(b.open, ids[..i])
    {
      assert ids[..i + 1][..i] == ids[..i];
      matched := matched + if ids[i] in b.open then b.open[ids[i]].amount else 0.0;
    }
    assert ids[..|ids|] == ids;
    var open := b.open;
    for i := 0 to |ids|
      invariant open == Without(b.open, ids[..i])
    {
      assert ids[..i + 1] == ids[..i] + [ids[i]];
      open := open - {ids[i]};
    }
    return Books(b.matches + [Match(w.id, ids, w.amount, matched, w.amount - matched, stage)], b.left, open);
  }

  method RunStage(stage: Stage, payments: seq<Payment>, tol: Tolerance, b: Books, ws: seq<Withdrawal>)
    returns (r: Books)
    ensures r == VisitAll(stage, payments, tol, b, ws)
  {
    r := b;
    for i := 0 to |ws|
      invariant VisitAll(stage, payments, tol, r, ws[i..]) == VisitAll(stage, payments, tol, b, ws)
    {
      assert ws[i..][1..] == ws[i + 1..];
      var picked := PickStep(stage, ws[i], Candidates(ws[i], payments, r.open, tol.days), tol.fee);
      if picked.None? {
        r := r.(left := r.left + [ws[i]]);
        continue;
      }
      r := CommitStep(r, ws[i], picked.value, stage);
    }
  }

  // ----- What a stage may pick -----

  function AmountOf(payments: seq<Payment>, id: string): Money {
    if payments == [] then 0.0
    else if payments[|payments| - 1].id == id then payments[|payments| - 1].amount
    else AmountOf(payments[..|payments| - 1], id)
  }

  function SumOfIds(payments: seq<Payment>, ids: seq<string>): Money {
    if ids == [] then 0.0
    else SumOfIds(payments, ids[..|ids| - 1]) + AmountOf(payments, ids[|ids| - 1])
  }

  /** What each stage demands of the payments it assigns. */
  ghost predicate StageRule(stage: Stage, w: Withdrawal, ids: seq<string>, total: Money, fee: Money) {
    match stage
    case Exact => |ids| == 1 && total == w.amount
    case Aggregate => 2 <= |ids| <= 24 && total == w.amount
    case FeeAdjusted => |ids| == 1 && fee > 0.0 && -fee <= w.amount - total <= fee
  }

  lemma {:induction false} AmountAt(payments: seq<Payment>, k: nat)
    requires k < |payments| && Distinct(PaymentIds(payments))
    ensures AmountOf(payments, payments[k].id) == payments[k].amount
  {
    var n := |payments| - 1;
    if k < n {
      assert PaymentIds(payments)[k] != PaymentIds(payments)[n];
      assert PaymentIds(payments[..n]) == PaymentIds(payments)[..n];
      AmountAt(payments[..n], k);
    }
  }

  lemma {:induction false} CoverAmount(payments: seq<Payment>, items: seq<Item>, pick: set<nat>)
    requires forall i :: 0 <= i < |items| ==> items[i].amount == AmountOf(payments, items[i].id)
    ensures SumOfIds(payments, IdsOf(items, pick)) == SumOf(items, pick)
    ensures |IdsOf(items, pick)| <= |items|
  {
    if items != [] {
      var n := |items| - 1;
      CoverAmount(payments, items[..n], pick);
      var ids := IdsOf(items[..n], pick);
      if n in pick {
        assert (ids + [items[n].id])[..|ids|] == ids;
      } else {
        assert ids + [] == ids;
      }
    }
  }

  lemma CandidatesAre(w: Withdrawal, payments: seq<Payment>, open: map<string, Payment>, days: int)
    requires Distinct(PaymentIds(payments))
    ensures
      var ps := Candidates(w, payments, open, days);
      && (forall p :: p in ps <==> p in payments && p.id in open && p.date - days <= w.date <= p.date + days)
      && Distinct(PaymentIds(ps))
  {
    var q := OpenNear(w, open, days);
    var ps := Filter(payments, q);
    assert ps == Candidates(w, payments, open, days);
    FilterMembers(payments, q);
    forall i, j | 0 <= i < j < |payments| ensures payments[i] != payments[j] {
      assert PaymentIds(payments)[i] != PaymentIds(payments)[j];
    }
    FilterDistinct(payments, q);
    forall i, j | 0 <= i < j < |ps|
      ensures ps[i].id != ps[j].id
    {
      assert ps[i] in payments && ps[j] in payments;
      var m :| 0 <= m < |payments| && payments[m] == ps[i];
      var n :| 0 <= n < |payments| && payments[n] == ps[j];
      assert m != n;
      assert PaymentIds(payments)[m] != PaymentIds(payments)[n];
    }
  }

  ghost predicate AreIdsOf(ids: seq<string>, ps: seq<Payment>) {
    forall i :: 0 <= i < |ids| ==> exists p :: p in ps && p.id == ids[i]
  }

  lemma OnlyIsOne(payments: seq<Payment>, ps: seq<Payment>, p: Payment -> bool)
    requires Distinct(PaymentIds(payments)) && forall x :: x in ps ==> x in payments
    requires Only(ps, p).Some?
    ensures
      var ids := Only(ps, p).value;
      && |ids| == 1 && AreIdsOf(ids, ps)
      && exists x :: x in ps && p(x) && ids == [x.id] && SumOfIds(payments, ids) == x.amount
  {
    var found := Filter(ps, p);
    FilterMembers(ps, p);
    var x := found[0];
    assert x in found && x in payments;
    var k :| 0 <= k < |payments| && payments[k] == x;
    AmountAt(payments, k);
    assert [x.id][..0] == [];
    assert SumOfIds(payments, [x.id]) == x.amount;
  }

  /** The one position at which a condition holds. */
  ghost predicate Sole<T>(s: seq<T>, p: T -> bool, k: nat) {
    k < |s| && p(s[k]) && forall j :: 0 <= j < |s| && p(s[j]) ==> j == k
  }

  /** What is kept of a list, around one of its positions. */
  lemma FilterAround<T>(s: seq<T>, p: T -> bool, k: nat)
    requires k < |s| && p(s[k])
    ensures Filter(s, p) == Filter(s[..k], p) + [s[k]] + Filter(s[k + 1..], p)
  {
    var left, right := s[..k], s[k + 1..];
    FilterAll([s[k]], p);
    hide Filter;
    assert s == left + [s[k]] + right;
    FilterConcat(left + [s[k]], right, p);
    FilterConcat(left, [s[k]], p);
  }

  lemma FilterNone<T>(s: seq<T>, p: T -> bool)
    ensures Filter(s, p) == [] <==> forall x :: x in s ==> !p(x)
  {
    FilterMembers(s, p);
    if Filter(s, p) != [] {
      assert Filter(s, p)[0] in Filter(s, p);
    }
  }

  /** The other positions, as members of what is before and behind. */
  lemma OtherPositions<T>(s: seq<T>, p: T -> bool, k: nat)
    requires k < |s|
    ensures (forall j :: 0 <= j < |s| && p(s[j]) ==> j == k)
       <==> (forall x :: x in s[..k] ==> !p(x)) && (forall x :: x in s[k + 1..] ==> !p(x))
  {
  }

  lemma KeptSomewhere<T>(s: seq<T>, p: T -> bool) returns (k: nat)
    requires Filter(s, p) != []
    ensures k < |s| && p(s[k])
  {
    FilterNone(s, p);
    var x :| x in s && p(x);
    var i :| 0 <= i < |s| && s[i] == x;
    k := i;
  }

  /** Exactly one element is kept when one position alone meets the condition. */
  lemma FilterOne<T>(s: seq<T>, p: T -> bool)
    ensures |Filter(s, p)| == 1 <==> exists k: nat :: Sole(s, p, k)
    ensures forall k: nat :: Sole(s, p, k) ==> Filter(s, p) == [s[k]]
  {
    hide Filter;
    forall k: nat | k < |s| && p(s[k])
      ensures Sole(s, p, k) <==> |Filter(s, p)| == 1
      ensures Sole(s, p, k) ==> Filter(s, p) == [s[k]]
    {
      FilterAround(s, p, k);
      OtherPositions(s, p, k);
      FilterNone(s[..k], p);
      FilterNone(s[k + 1..], p);
    }
    if |Filter(s, p)| == 1 {
      var k := KeptSomewhere(s, p);
      assert Sole(s, p, k);
    }
  }

  lemma {:induction false} FilterTwice<T>(s: seq<T>, p: T -> bool, q: T -> bool, both: T -> bool)
    requires forall x :: x in s ==> (both(x) <==> p(x) && q(x))
    ensures Filter(Filter(s, p), q) == Filter(s, both)
  {
    if s != [] {
      var init, last := s[..|s| - 1], s[|s| - 1];
      assert s == init + [last];
      FilterTwice(init, p, q, both);
      var kept := Filter(init, p);
      if p(last) {
        assert (kept + [last])[..|kept|] == kept;
      } else {
        assert kept + [] == kept;
      }
    }
  }

  /** The payment at `k` is open, near the date, and equal to the withdrawal; no other one is. */
  ghost predicate OnlyEqual(payments: seq<Payment>, open: map<string, Payment>, w: Withdrawal, days: int, k: nat) {
    && k < |payments| && IsEqual(payments[k], open, w, days)
    && forall j :: 0 <= j < |payments| && IsEqual(payments[j], open, w, days) ==> j == k
  }

  ghost predicate IsEqual(p: Payment, open: map<string, Payment>, w: Withdrawal, days: int) {
    p.id in open && p.date - days <= w.date <= p.date + days && p.amount == w.amount
  }

  /** The payment at `k` is open, near the date, and within the fee of the withdrawal; no other one is. */
  ghost predicate OnlyNear(
    payments: seq<Payment>, open: map<string, Payment>, w: Withdrawal, days: int, fee: Money, k: nat)
  {
    && k < |payments| && IsNear(payments[k], open, w, days, fee)
    && forall j :: 0 <= j < |payments| && IsNear(payments[j], open, w, days, fee) ==> j == k
  }

  ghost predicate IsNear(p: Payment, open: map<string, Payment>, w: Withdrawal, days: int, fee: Money) {
    p.id in open && p.date - days <= w.date <= p.date + days && -fee <= w.amount - p.amount <= fee
  }

  /** The exact stage takes a payment if and only if it is the only open one near the date that equals the
      withdrawal. */
  lemma ExactPicksExactlyWhen(
    w: Withdrawal, payments: seq<Payment>, open: map<string, Payment>, days: int, fee: Money)
    ensures
      var picked := Pick(Exact, w, Candidates(w, payments, open, days), fee);
      && (picked.Some? <==> exists k: nat :: OnlyEqual(payments, open, w, days, k))
      && forall k: nat :: OnlyEqual(payments, open, w, days, k) ==> picked == Some([payments[k].id])
  {
    var equal := (p: Payment) => IsEqual(p, open, w, days);
    FilterTwice(payments, OpenNear(w, open, days), EqualTo(w), equal);
    FilterOne(payments, equal);
    forall k: nat ensures Sole(payments, equal, k) <==> OnlyEqual(payments, open, w, days, k) {}
  }

  /** The fee stage takes a payment if and only if there is a fee and it is the only open one near the date and within
      the fee. */
  lemma FeePicksExactlyWhen(
    w: Withdrawal, payments: seq<Payment>, open: map<string, Payment>, days: int, fee: Money)
    ensures
      var picked := Pick(FeeAdjusted, w, Candidates(w, payments, open, days), fee);
      && (picked.Some? <==> fee > 0.0 && exists k: nat :: OnlyNear(payments, open, w, days, fee, k))
      && (fee > 0.0 ==>
            forall k: nat :: OnlyNear(payments, open, w, days, fee, k) ==> picked == Some([payments[k].id]))
  {
    var near := (p: Payment) => IsNear(p, open, w, days, fee);
    FilterTwice(payments, OpenNear(w, open, days), Near(w, fee), near);
    FilterOne(payments, near);
    forall k: nat ensures Sole(payments, near, k) <==> OnlyNear(payments, open, w, days, fee, k) {}
  }

  /** Whatever a stage picks are distinct candidates that obey the rule of the stage. */
  lemma PickObeysRule(stage: Stage, w: Withdrawal, payments: seq<Payment>, ps: seq<Payment>, fee: Money)
    requires Admissible(payments) && Distinct(PaymentIds(ps)) && w.amount > 0.0
    requires forall x :: x in ps ==> x in payments
    requires Pick(stage, w, ps, fee).Some?
    ensures
      var ids := Pick(stage, w, ps, fee).value;
      Distinct(ids) && AreIdsOf(ids, ps) && StageRule(stage, w, ids, SumOfIds(payments, ids), fee)
  {
    match stage {
      case Exact => OnlyIsOne(payments, ps, EqualTo(w));
      case FeeAdjusted => OnlyIsOne(payments, ps, Near(w, fee));
      case Aggregate => AggregateObeysRule(w, payments, ps, fee);
    }
  }

  lemma AggregateObeysRule(w: Withdrawal, payments: seq<Payment>, ps: seq<Payment>, fee: Money)
    requires Admissible(payments) && Distinct(PaymentIds(ps)) && w.amount > 0.0
    requires forall x :: x in ps ==> x in payments
    requires Pick(Aggregate, w, ps, fee).Some?
    ensures
      var ids := Pick(Aggregate, w, ps, fee).value;
      Distinct(ids) && AreIdsOf(ids, ps) && StageRule(Aggregate, w, ids, SumOfIds(payments, ids), fee)
  {
    var items := ToItems(ps);
    var ids := Pick(Aggregate, w, ps, fee).value;
    forall i | 0 <= i < |items|
      ensures items[i].amount > 0.0 && items[i].amount == AmountOf(payments, items[i].id)
    {
      assert ps[i] in payments;
      var k :| 0 <= k < |payments| && payments[k] == ps[i];
      AmountAt(payments, k);
    }
    forall i, j | 0 <= i < j < |items|
      ensures items[i].id != items[j].id
    {
      assert PaymentIds(ps)[i] != PaymentIds(ps)[j];
    }
    TableIsExact(items, w.amount, w.amount);
    var pick :| SumOf(items, pick) == w.amount && ids == IdsOf(items, pick);
    IdsAreDistinct(items, pick);
    CoverAmount(payments, items, pick);
    forall i | 0 <= i < |ids|
      ensures exists p :: p in ps && p.id == ids[i]
    {
      assert ids[i] in ids;
      var k :| 0 <= k < |items| && items[k].id == ids[i];
      assert ps[k] in ps;
    }
  }

  /** The exact reach of the aggregate stage: a combination is found if and only if the search is within its
      limits and the candidates before the first one equal to the withdrawal contain one. A single equal
      candidate that comes first hides any combination after it. */
  lemma AggregateFindsExactlyWhen(w: Withdrawal, payments: seq<Payment>, ps: seq<Payment>, fee: Money)
    requires Admissible(payments) && w.amount > 0.0
    requires forall x :: x in ps ==> x in payments
    ensures
      var items := ToItems(ps);
      Pick(Aggregate, w, ps, fee).Some? <==>
        && |ps| <= 24
        && |Table(items, w.amount)| <= 200_000
        && Reaches(items[..FirstEqual(items, w.amount)], w.amount)
  {
    var items := ToItems(ps);
    forall i | 0 <= i < |items|
      ensures items[i].amount > 0.0
    {
      assert ps[i] in payments;
    }
    SearchSucceedsExactlyWhen(items, w.amount);
  }

  // ----- What the books keep -----

  function MatchedIds(matches: seq<Match>): seq<string> {
    if matches == [] then [] else MatchedIds(matches[..|matches| - 1]) + matches[|matches| - 1].paymentIds
  }

  function MatchedLines(matches: seq<Match>): seq<string> {
    if matches == [] then [] else MatchedLines(matches[..|matches| - 1]) + [matches[|matches| - 1].lineId]
  }

  function WithdrawnOf(m: Match): Money { m.withdrawn }
  function MatchedOf(m: Match): Money { m.matched }
  function WithdrawalAmount(w: Withdrawal): Money { w.amount }
  function PaymentAmount(p: Payment): Money { p.amount }

  /** The payments still open, added up. */
  function OpenTotal(payments: seq<Payment>, open: map<string, Payment>): Money {
    if payments == [] then 0.0
    else
      var last := payments[|payments| - 1];
      OpenTotal(payments[..|payments| - 1], open) + if last.id in open then last.amount else 0.0
  }

  /** A match names a withdrawal of the list and payments near its date, and obeys the rule of its stage. */
  ghost predicate Justified(withdrawals: seq<Withdrawal>, payments: seq<Payment>, tol: Tolerance, m: Match) {
    exists w :: w in withdrawals
      && m.lineId == w.id && m.withdrawn == w.amount
      && m.matched == SumOfIds(payments, m.paymentIds) && m.difference == w.amount - m.matched
      && StageRule(m.stage, w, m.paymentIds, m.matched, tol.fee)
      && forall i :: 0 <= i < |m.paymentIds| ==>
           exists p :: p in payments && p.id == m.paymentIds[i] && p.date - tol.days <= w.date <= p.date + tol.days
  }

  /** Payments are split between the matches and the open table; nothing is in both, nothing is lost. */
  ghost predicate PaymentsSplit(payments: seq<Payment>, b: Books) {
    && Distinct(MatchedIds(b.matches))
    && (forall id :: id in MatchedIds(b.matches) ==> id in PaymentIds(payments))
    && (forall p :: p in payments ==> (p.id in b.open <==> p.id !in MatchedIds(b.matches)))
    && (forall id :: id in b.open ==> b.open[id] in payments && b.open[id].id == id)
    && Total(b.matches, MatchedOf) + OpenTotal(payments, b.open) == Total(payments, PaymentAmount)
  }

  /** Withdrawals are split between the matches, those left by this stage and those still to visit. */
  ghost predicate WithdrawalsSplit(withdrawals: seq<Withdrawal>, b: Books, todo: seq<Withdrawal>) {
    && multiset(MatchedLines(b.matches)) + multiset(LineIds(b.left)) + multiset(LineIds(todo))
       == multiset(LineIds(withdrawals))
    && Total(b.matches, WithdrawnOf) + Total(b.left, WithdrawalAmount) + Total(todo, WithdrawalAmount)
       == Total(withdrawals, WithdrawalAmount)
    && (forall w :: w in b.left ==> w in withdrawals)
    && (forall w :: w in todo ==> w in withdrawals)
  }

  ghost predicate AllJustified(withdrawals: seq<Withdrawal>, payments: seq<Payment>, tol: Tolerance, b: Books) {
    forall i :: 0 <= i < |b.matches| ==> Justified(withdrawals, payments, tol, b.matches[i])
  }

  /** Everything the books promise between two visits. */
  ghost predicate Sound(
    withdrawals: seq<Withdrawal>, payments: seq<Payment>, tol: Tolerance, b: Books, todo: seq<Withdrawal>)
  {
    PaymentsSplit(payments, b) && WithdrawalsSplit(withdrawals, b, todo) && AllJustified(withdrawals, payments, tol, b)
  }

  // ----- Every visit keeps them -----

  lemma {:induction false} OpenTotalRemove(payments: seq<Payment>, open: map<string, Payment>, id: string)
    requires Distinct(PaymentIds(payments))
    ensures OpenTotal(payments, Without(open, [id]))
         == OpenTotal(payments, open) - if id in open && id in PaymentIds(payments) then AmountOf(payments, id) else 0.0
  {
    if payments != [] {
      var n := |payments| - 1;
      var init := payments[..n];
      assert PaymentIds(init) == PaymentIds(payments)[..n];
      OpenTotalRemove(init, open, id);
      assert PaymentIds(payments) == PaymentIds(init) + [payments[n].id];
      if payments[n].id == id {
        assert id !in PaymentIds(init);
      }
    }
  }

  lemma {:induction false} OpenTotalCommit(payments: seq<Payment>, open: map<string, Payment>, ids: seq<string>)
    requires Distinct(PaymentIds(payments)) && Distinct(ids)
    requires forall i :: 0 <= i < |ids| ==> ids[i] in open && ids[i] in PaymentIds(payments)
    ensures OpenTotal(payments, Without(open, ids)) == OpenTotal(payments, open) - SumOfIds(payments, ids)
  {
    if ids == [] {
      assert Without(open, ids) == open;
    } else {
      var n := |ids| - 1;
      var init, last := ids[..n], ids[n];
      assert ids == init + [last];
      OpenTotalCommit(payments, open, init);
      assert last !in init;
      OpenTotalRemove(payments, Without(open, init), last);
      assert Without(Without(open, init), [last]) == Without(open, ids);
    }
  }

  lemma {:induction false} OpenAmountIsSum(payments: seq<Payment>, open: map<string, Payment>, ids: seq<string>)
    requires Distinct(PaymentIds(payments))
    requires forall id :: id in open ==> open[id] in payments && open[id].id == id
    requires forall i :: 0 <= i < |ids| ==> ids[i] in open
    ensures OpenAmount(open, ids) == SumOfIds(payments, ids)
  {
    if ids != [] {
      var n := |ids| - 1;
      OpenAmountIsSum(payments, open, ids[..n]);
      var k :| 0 <= k < |payments| && payments[k] == open[ids[n]];
      AmountAt(payments, k);
    }
  }

  lemma MatchesSnoc(matches: seq<Match>, m: Match)
    ensures MatchedIds(matches + [m]) == MatchedIds(matches) + m.paymentIds
    ensures MatchedLines(matches + [m]) == MatchedLines(matches) + [m.lineId]
    ensures Total(matches + [m], MatchedOf) == Total(matches, MatchedOf) + m.matched
    ensures Total(matches + [m], WithdrawnOf) == Total(matches, WithdrawnOf) + m.withdrawn
  {
    assert (matches + [m])[..|matches|] == matches;
  }

  lemma CommitSplitsPayments(payments: seq<Payment>, b: Books, w: Withdrawal, ids: seq<string>, stage: Stage)
    requires Distinct(PaymentIds(payments)) && PaymentsSplit(payments, b) && Distinct(ids)
    requires forall i :: 0 <= i < |ids| ==> ids[i] in b.open && ids[i] in PaymentIds(payments)
    ensures PaymentsSplit(payments, Commit(b, w, ids, stage))
    ensures Commit(b, w, ids, stage).matches[|b.matches|].matched == SumOfIds(payments, ids)
  {
    var b' := Commit(b, w, ids, stage);
    var m := b'.matches[|b.matches|];
    MatchesSnoc(b.matches, m);
    OpenAmountIsSum(payments, b.open, ids);
    OpenTotalCommit(payments, b.open, ids);
    forall i | 0 <= i < |ids|
      ensures ids[i] !in MatchedIds(b.matches)
    {
      assert b.open[ids[i]] in payments && b.open[ids[i]].id == ids[i];
    }
  }

  lemma CommitSplitsWithdrawals(
    withdrawals: seq<Withdrawal>, b: Books, w: Withdrawal, todo: seq<Withdrawal>, ids: seq<string>, stage: Stage)
    requires WithdrawalsSplit(withdrawals, b, [w] + todo)
    ensures WithdrawalsSplit(withdrawals, Commit(b, w, ids, stage), todo)
  {
    var m := Commit(b, w, ids, stage).matches[|b.matches|];
    MatchesSnoc(b.matches, m);
    TodoHead(w, todo);
  }

  lemma SkipSplitsWithdrawals(withdrawals: seq<Withdrawal>, b: Books, w: Withdrawal, todo: seq<Withdrawal>)
    requires WithdrawalsSplit(withdrawals, b, [w] + todo)
    ensures WithdrawalsSplit(withdrawals, b.(left := b.left + [w]), todo)
  {
    TodoHead(w, todo);
    assert LineIds(b.left + [w]) == LineIds(b.left) + [w.id];
    TotalSnoc(b.left, w, WithdrawalAmount);
  }

  lemma TodoHead(w: Withdrawal, todo: seq<Withdrawal>)
    ensures multiset(LineIds([w] + todo)) == multiset{w.id} + multiset(LineIds(todo))
    ensures Total([w] + todo, WithdrawalAmount) == w.amount + Total(todo, WithdrawalAmount)
    ensures w in [w] + todo && forall x :: x in todo ==> x in [w] + todo
  {
    assert LineIds([w] + todo) == [w.id] + LineIds(todo);
    TotalConcat([w], todo, WithdrawalAmount);
    assert [w][..0] == [];
    assert ([w] + todo)[0] == w;
  }

  ghost predicate Pickable(
    payments: seq<Payment>, open: map<string, Payment>, w: Withdrawal, ids: seq<string>, days: int)
  {
    && Distinct(ids)
    && (forall i :: 0 <= i < |ids| ==> ids[i] in open && ids[i] in PaymentIds(payments))
    && (forall i :: 0 <= i < |ids| ==>
          exists p :: p in payments && p.id == ids[i] && p.date - days <= w.date <= p.date + days)
  }

  /** Whatever a stage picks is open, near the date, distinct, and obeys the rule of the stage. */
  lemma PickedAreSound(stage: Stage, w: Withdrawal, payments: seq<Payment>, tol: Tolerance, open: map<string, Payment>)
    requires Admissible(payments) && w.amount > 0.0
    requires Pick(stage, w, Candidates(w, payments, open, tol.days), tol.fee).Some?
    ensures
      var ids := Pick(stage, w, Candidates(w, payments, open, tol.days), tol.fee).value;
      Pickable(payments, open, w, ids, tol.days) && StageRule(stage, w, ids, SumOfIds(payments, ids), tol.fee)
  {
    var ps := Candidates(w, payments, open, tol.days);
    CandidatesAre(w, payments, open, tol.days);
    PickObeysRule(stage, w, payments, ps, tol.fee);
    var ids := Pick(stage, w, ps, tol.fee).value;
    forall i | 0 <= i < |ids|
      ensures ids[i] in open && ids[i] in PaymentIds(payments)
      ensures exists p :: p in payments && p.id == ids[i] && p.date - tol.days <= w.date <= p.date + tol.days
    {
      assert exists p :: p in ps && p.id == ids[i];
      var p :| p in ps && p.id == ids[i];
      var k :| 0 <= k < |payments| && payments[k] == p;
      assert PaymentIds(payments)[k] == ids[i];
    }
  }

  lemma CommitJustified(
    stage: Stage, withdrawals: seq<Withdrawal>, payments: seq<Payment>, tol: Tolerance, b: Books,
    w: Withdrawal, ids: seq<string>)
    requires AllJustified(withdrawals, payments, tol, b) && w in withdrawals
    requires OpenAmount(b.open, ids) == SumOfIds(payments, ids)
    requires StageRule(stage, w, ids, SumOfIds(payments, ids), tol.fee)
    requires forall i :: 0 <= i < |ids| ==>
      exists p :: p in payments && p.id == ids[i] && p.date - tol.days <= w.date <= p.date + tol.days
    ensures AllJustified(withdrawals, payments, tol, Commit(b, w, ids, stage))
  {
    var b' := Commit(b, w, ids, stage);
    var m := b'.matches[|b.matches|];
    assert m.paymentIds == ids;
    assert Justified(withdrawals, payments, tol, m);
  }

  lemma CommitKeeps(
    stage: Stage, withdrawals: seq<Withdrawal>, payments: seq<Payment>, tol: Tolerance, b: Books,
    w: Withdrawal, todo: seq<Withdrawal>, ids: seq<string>)
    requires Admissible(payments) && Sound(withdrawals, payments, tol, b, [w] + todo) && w in withdrawals
    requires Pickable(payments, b.open, w, ids, tol.days) && StageRule(stage, w, ids, SumOfIds(payments, ids), tol.fee)
    ensures Sound(withdrawals, payments, tol, Commit(b, w, ids, stage), todo)
  {
    hide PaymentsSplit, WithdrawalsSplit, AllJustified, StageRule;
    CommitSplitsPayments(payments, b, w, ids, stage);
    CommitSplitsWithdrawals(withdrawals, b, w, todo, ids, stage);
    CommitJustified(stage, withdrawals, payments, tol, b, w, ids);
  }

  lemma SkipKeeps(
    withdrawals: seq<Withdrawal>, payments: seq<Payment>, tol: Tolerance, b: Books, w: Withdrawal,
    todo: seq<Withdrawal>)
    requires Sound(withdrawals, payments, tol, b, [w] + todo)
    ensures Sound(withdrawals, payments, tol, b.(left := b.left + [w]), todo)
  {
    SkipSplitsWithdrawals(withdrawals, b, w, todo);
  }

  lemma TodoIsWithdrawn(
    withdrawals: seq<Withdrawal>, payments: seq<Payment>, tol: Tolerance, b: Books, w: Withdrawal,
    todo: seq<Withdrawal>)
    requires Sound(withdrawals, payments, tol, b, [w] + todo)
    ensures w in withdrawals
  {
    assert ([w] + todo)[0] == w;
  }

  lemma VisitKeeps(
    stage: Stage, withdrawals: seq<Withdrawal>, payments: seq<Payment>, tol: Tolerance, b: Books,
    w: Withdrawal, todo: seq<Withdrawal>)
    requires Admissible(payments) && forall x :: x in withdrawals ==> x.amount > 0.0
    requires Sound(withdrawals, payments, tol, b, [w] + todo)
    ensures Sound(withdrawals, payments, tol, Visit(stage, payments, tol, b, w), todo)
  {
    hide Sound, Pick, Candidates, StageRule, Commit, Pickable;
    TodoIsWithdrawn(withdrawals, payments, tol, b, w, todo);
    var picked := Pick(stage, w, Candidates(w, payments, b.open, tol.days), tol.fee);
    if picked.None? {
      SkipKeeps(withdrawals, payments, tol, b, w, todo);
    } else {
      PickedAreSound(stage, w, payments, tol, b.open);
      CommitKeeps(stage, withdrawals, payments, tol, b, w, todo, picked.value);
    }
  }

  lemma {:induction false} StageKeeps(
    stage: Stage, withdrawals: seq<Withdrawal>, payments: seq<Payment>, tol: Tolerance, b: Books, ws: seq<Withdrawal>)
    requires Admissible(payments) && forall x :: x in withdrawals ==> x.amount > 0.0
    requires Sound(withdrawals, payments, tol, b, ws)
    ensures Sound(withdrawals, payments, tol, VisitAll(stage, payments, tol, b, ws), [])
    decreases |ws|
  {
    if ws != [] {
      assert ws == [ws[0]] + ws[1..];
      VisitKeeps(stage, withdrawals, payments, tol, b, ws[0], ws[1..]);
      StageKeeps(stage, withdrawals, payments, tol, Visit(stage, payments, tol, b, ws[0]), ws[1..]);
    }
  }

  // ----- The three stages -----

  function OpenTable(payments: seq<Payment>): map<string, Payment> {
    if payments == [] then map[]
    else
      var last := payments[|payments| - 1];
      OpenTable(payments[..|payments| - 1])[last.id := last]
  }

  lemma {:induction false} OpenTableHolds(payments: seq<Payment>)
    requires Distinct(PaymentIds(payments))
    ensures forall p :: p in payments ==> p.id in OpenTable(payments)
    ensures forall id :: id in OpenTable(payments) ==>
      OpenTable(payments)[id] in payments && OpenTable(payments)[id].id == id
  {
    if payments != [] {
      var n := |payments| - 1;
      assert payments == payments[..n] + [payments[n]];
      assert PaymentIds(payments[..n]) == PaymentIds(payments)[..n];
      OpenTableHolds(payments[..n]);
    }
  }

  lemma {:induction false} OpenTotalAll(payments: seq<Payment>, open: map<string, Payment>)
    requires forall p :: p in payments ==> p.id in open
    ensures OpenTotal(payments, open) == Total(payments, PaymentAmount)
  {
    if payments != [] {
      var n := |payments| - 1;
      assert payments == payments[..n] + [payments[n]];
      OpenTotalAll(payments[..n], open);
    }
  }

  lemma StartSplits(withdrawals: seq<Withdrawal>, payments: seq<Payment>, tol: Tolerance)
    requires Distinct(PaymentIds(payments))
    ensures
      Sound(withdrawals, payments, tol, Books([], [], OpenTable(payments)), withdrawals)
  {
    OpenTableHolds(payments);
    OpenTotalAll(payments, OpenTable(payments));
  }

  lemma NextStage(withdrawals: seq<Withdrawal>, payments: seq<Payment>, tol: Tolerance, b: Books)
    requires Sound(withdrawals, payments, tol, b, [])
    ensures Sound(withdrawals, payments, tol, b.(left := []), b.left)
  {
    assert LineIds([]) == [];
  }

  function OpenIds(payments: seq<Payment>, open: map<string, Payment>): seq<string> {
    if payments == [] then []
    else
      var last := payments[|payments| - 1];
      OpenIds(payments[..|payments| - 1], open) + if last.id in open then [last.id] else []
  }

  /** Payments are split between matches and the unmatched list: each in exactly one place, totals conserved. */
  ghost predicate SplitsPayments(payments: seq<Payment>, m: MatchResult) {
    && Distinct(MatchedIds(m.matches))
    && (forall id :: id in MatchedIds(m.matches) ==> id in PaymentIds(payments))
    && (forall p :: p in payments ==> (p.id in m.unmatchedPaymentIds <==> p.id !in MatchedIds(m.matches)))
    && Total(m.matches, MatchedOf) + m.unmatchedPaymentTotal == Total(payments, PaymentAmount)
  }

  /** Withdrawals likewise; together the two lists are a rearrangement of the statement. */
  ghost predicate SplitsWithdrawals(withdrawals: seq<Withdrawal>, m: MatchResult) {
    && multiset(MatchedLines(m.matches)) + multiset(m.unmatchedLineIds) == multiset(LineIds(withdrawals))
    && m.matchedTotal + m.unmatchedWithdrawalTotal == Total(withdrawals, WithdrawalAmount)
    && m.matchedTotal == Total(m.matches, WithdrawnOf)
    && m.matchedCount == |m.matches|
  }

  lemma {:induction false} OpenIdsAre(payments: seq<Payment>, open: map<string, Payment>)
    ensures forall p :: p in payments ==> (p.id in OpenIds(payments, open) <==> p.id in open)
    ensures forall id :: id in OpenIds(payments, open) ==> id in open
  {
    if payments != [] {
      var n := |payments| - 1;
      assert payments == payments[..n] + [payments[n]];
      OpenIdsAre(payments[..n], open);
    }
  }

  /** The three stages in order; the fee stage does nothing without a tolerance. */
  method MatchAll(withdrawals: seq<Withdrawal>, payments: seq<Payment>, tol: Tolerance)
    returns (r: Result<MatchResult, MatchError>)
    ensures Validate(withdrawals, payments, tol).Some? ==> r == Err(Validate(withdrawals, payments, tol).value)
    ensures Validate(withdrawals, payments, tol).None? ==>
      && r.Ok?
      && r.value.matches == ThreeStages(withdrawals, payments, tol).matches
      && r.value.unmatchedLineIds == LineIds(ThreeStages(withdrawals, payments, tol).left)
      && r.value.unmatchedPaymentIds == OpenIds(payments, ThreeStages(withdrawals, payments, tol).open)
      && SplitsPayments(payments, r.value)
      && SplitsWithdrawals(withdrawals, r.value)
      && (forall i :: 0 <= i < |r.value.matches| ==> Justified(withdrawals, payments, tol, r.value.matches[i]))
      && (r.value.fullyReconciled <==> r.value.unmatchedLineIds == [] && r.value.unmatchedPaymentIds == [])
  {
    var problem := Validate(withdrawals, payments, tol);
    if problem.Some? {
      return Err(problem.value);
    }
    assert Admissible(payments);
    var b := Books([], [], OpenTable(payments));
    StartSplits(withdrawals, payments, tol);
    b := KeepingStage(Exact, withdrawals, payments, tol, b, withdrawals);
    NextStage(withdrawals, payments, tol, b);
    b := KeepingStage(Aggregate, withdrawals, payments, tol, b.(left := []), b.left);
    if tol.fee > 0.0 {
      NextStage(withdrawals, payments, tol, b);
      b := KeepingStage(FeeAdjusted, withdrawals, payments, tol, b.(left := []), b.left);
    }
    r := Ok(Report(payments, b));
    ReportSplits(withdrawals, payments, tol, b);
  }

  function Report(payments: seq<Payment>, b: Books): MatchResult {
    MatchResult(
      b.matches, LineIds(b.left), OpenIds(payments, b.open), |b.matches|, Total(b.matches, WithdrawnOf),
      Total(b.left, WithdrawalAmount), OpenTotal(payments, b.open), b.left == [] && b.open == map[])
  }

  lemma ReportSplits(withdrawals: seq<Withdrawal>, payments: seq<Payment>, tol: Tolerance, b: Books)
    requires Sound(withdrawals, payments, tol, b, [])
    ensures
      var m := Report(payments, b);
      && SplitsPayments(payments, m) && SplitsWithdrawals(withdrawals, m)
      && (m.fullyReconciled <==> m.unmatchedLineIds == [] && m.unmatchedPaymentIds == [])
  {
    assert LineIds([]) == [];
    OpenIdsAre(payments, b.open);
    NothingOpen(payments, b.open);
  }

  lemma NothingOpen(payments: seq<Payment>, open: map<string, Payment>)
    requires forall id :: id in open ==> open[id] in payments && open[id].id == id
    ensures OpenIds(payments, open) == [] <==> open == map[]
  {
    OpenIdsAre(payments, open);
    var ids := OpenIds(payments, open);
    assert ids != [] ==> ids[0] in open;
    if open != map[] {
      var id :| id in open;
      assert open[id] in payments;
    }
  }

  /** The three stages one after the other, each visiting what the one before it left. */
  ghost function ThreeStages(withdrawals: seq<Withdrawal>, payments: seq<Payment>, tol: Tolerance): Books {
    var first := VisitAll(Exact, payments, tol, Books([], [], OpenTable(payments)), withdrawals);
    var second := VisitAll(Aggregate, payments, tol, first.(left := []), first.left);
    if tol.fee > 0.0 then VisitAll(FeeAdjusted, payments, tol, second.(left := []), second.left) else second
  }

  method KeepingStage(
    stage: Stage, withdrawals: seq<Withdrawal>, payments: seq<Payment>, tol: Tolerance, b: Books, ws: seq<Withdrawal>)
    returns (r: Books)
    requires Admissible(payments) && forall x :: x in withdrawals ==> x.amount > 0.0
    requires Sound(withdrawals, payments, tol, b, ws)
    ensures r == VisitAll(stage, payments, tol, b, ws) && Sound(withdrawals, payments, tol, r, [])
  {
    r := RunStage(stage, payments, tol, b, ws);
    StageKeeps(stage, withdrawals, payments, tol, b, ws);
  }

  // ----- A combination the three stages miss -----

  lemma AllAreCandidates(w: Withdrawal, payments: seq<Payment>, days: int)
    requires Distinct(PaymentIds(payments)) && forall p :: p in payments ==> p.date - days <= w.date <= p.date + days
    ensures Candidates(w, payments, OpenTable(payments), days) == payments
  {
    OpenTableHolds(payments);
    FilterAll(payments, OpenNear(w, OpenTable(payments), days));
  }

  /** A lone withdrawal stays unmatched exactly when none of the stages picks anything for it. */
  lemma LoneWithdrawalIsLeftExactlyWhen(w: Withdrawal, payments: seq<Payment>, tol: Tolerance)
    ensures
      var ps := Candidates(w, payments, OpenTable(payments), tol.days);
      ThreeStages([w], payments, tol) == Books([], [w], OpenTable(payments)) <==>
        && Pick(Exact, w, ps, tol.fee).None? && Pick(Aggregate, w, ps, tol.fee).None?
        && Pick(FeeAdjusted, w, ps, tol.fee).None?
  {
    hide Candidates, OpenTable, Table, Lookup, Only;
    var b := Books([], [], OpenTable(payments));
    OneVisit(Exact, payments, tol, b, w);
    var first := VisitAll(Exact, payments, tol, b, [w]);
    if first.left == [] {
      StageOnNothing(payments, tol, first);
    } else {
      assert first == b.(left := [w]) && first.(left := []) == b;
      OneVisit(Aggregate, payments, tol, b, w);
      var second := VisitAll(Aggregate, payments, tol, b, [w]);
      if second.left == [] {
        StageOnNothing(payments, tol, second);
      } else {
        assert second == b.(left := [w]) && second.(left := []) == b;
        OneVisit(FeeAdjusted, payments, tol, b, w);
      }
    }
  }

  lemma StageOnNothing(payments: seq<Payment>, tol: Tolerance, b: Books)
    ensures forall stage :: VisitAll(stage, payments, tol, b, []) == b
  {
  }

  /** A stage on one withdrawal. */
  lemma OneVisit(stage: Stage, payments: seq<Payment>, tol: Tolerance, b: Books, w: Withdrawal)
    ensures VisitAll(stage, payments, tol, b, [w]) == Visit(stage, payments, tol, b, w)
  {
    assert [w][1..] == [];
  }

  /** Two payments equal to the withdrawal, the first one listed first: no stage picks anything, whatever else there
      is. */
  lemma TwoEqualsBlockAllStages(w: Withdrawal, ps: seq<Payment>, k: nat, fee: Money)
    requires 0 < k < |ps| && ps[0] != ps[k] && ps[0].amount == ps[k].amount == w.amount > 0.0 && fee >= 0.0
    requires Admissible(ps)
    ensures forall stage :: Pick(stage, w, ps, fee).None?
  {
    NotTheOnly(ps, EqualTo(w), k);
    NotTheOnly(ps, Near(w, fee), k);
    AggregateFindsExactlyWhen(w, ps, ps, fee);
    var items := ToItems(ps);
    assert FirstEqual(items, w.amount) == 0 && items[..0] == [];
    forall pick: set<nat> ensures SumOf(items[..0], pick) == 0.0 {}
  }

  lemma NotTheOnly(ps: seq<Payment>, p: Payment -> bool, k: nat)
    requires 0 < k < |ps| && ps[0] != ps[k] && p(ps[0]) && p(ps[k])
    ensures Only(ps, p).None?
  {
    FilterMembers(ps, p);
    assert ps[0] in Filter(ps, p) && ps[k] in Filter(ps, p);
  }

  /** Two payments of 100, then 60 and 40. */
  function HiddenCombination(w: Withdrawal): seq<Payment> {
    [Payment("a", "", 100.0, w.date), Payment("b", "", 100.0, w.date),
     Payment("c", "", 60.0, w.date), Payment("d", "", 40.0, w.date)]
  }

  /**
    * A withdrawal of 100 facing two payments of 100, one of 60 and one of 40 on its day stays unmatched by all three
    * stages under every tolerance, although 60 and 40 make it up: the exact stage sees two equal payments and passes,
    * the combined stage records the single payment of 100 first, and the fee stage sees two near ones.
    */
  lemma EqualPaymentHidesCombination(w: Withdrawal, tol: Tolerance)
    requires w.amount == 100.0 && tol.days >= 0 && tol.fee >= 0.0
    ensures Validate([w], HiddenCombination(w), tol).None?
    ensures Covers(ToItems(HiddenCombination(w)), ["c", "d"], w.amount)
    ensures ThreeStages([w], HiddenCombination(w), tol) == Books([], [w], OpenTable(HiddenCombination(w)))
  {
    hide Pick, Candidates, ThreeStages, OpenTable, SumOf, IdsOf, Filter;
    var ps := HiddenCombination(w);
    assert ps[0].id == "a" && ps[1].id == "b" && ps[2].id == "c" && ps[3].id == "d";
    assert Admissible(ps);
    AllAreCandidates(w, ps, tol.days);
    TwoEqualsBlockAllStages(w, ps, 1, tol.fee);
    LoneWithdrawalIsLeftExactlyWhen(w, ps, tol);
    var pick: set<nat> := {2, 3};
    SixtyAndForty(ToItems(ps), pick);
  }

  lemma SixtyAndForty(items: seq<Item>, pick: set<nat>)
    requires |items| == 4 && items[2] == Item("c", 60.0) && items[3] == Item("d", 40.0)
    requires 0 !in pick && 1 !in pick && 2 in pick && 3 in pick
    ensures SumOf(items, pick) == 100.0 && IdsOf(items, pick) == ["c", "d"]
  {
    var three, two, one := items[..3], items[..2], items[..1];
    assert three[..2] == two && two[..1] == one && one[..0] == [];
    assert SumOf(one, pick) == 0.0 && IdsOf(one, pick) == [];
    assert SumOf(two, pick) == 0.0 && IdsOf(two, pick) == [];
    assert SumOf(three, pick) == 60.0 && IdsOf(three, pick) == ["c"];
  }
}
