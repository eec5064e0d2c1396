/** The subset-sum search both matchers use to recognise one payment covering several items. */
module SubsetSum {
  import opened Wrappers

  const MAX_SUBSET_CANDIDATES := 24

  datatype Item = Item(id: string, amount: real)

  ghost predicate AllPositive(items: seq<Item>) {
    forall i :: 0 <= i < |items| ==> items[i].amount > 0.0
  }

  // ----- What the search is for: choosing positions of the list -----

  /** The amounts at the chosen positions, added up. */
  ghost function SumOf(items: seq<Item>, pick: set<nat>): real {
    if items == [] then 0.0
    else
      var n := |items| - 1;
      SumOf(items[..n], pick) + if n in pick then items[n].amount else 0.0
  }

  /** The identifiers at the chosen positions, in list order. */
  ghost function IdsOf(items: seq<Item>, pick: set<nat>): seq<string> {
    if items == [] then []
    else
      var n := |items| - 1;
      IdsOf(items[..n], pick) + if n in pick then [items[n].id] else []
  }

  /** Some choice of distinct positions adds up to exactly `total`. */
  ghost predicate Reaches(items: seq<Item>, total: real) {
    exists pick: set<nat> :: SumOf(items, pick) == total
  }

  /** `ids` are the identifiers of distinct positions that add up to exactly `total`. */
  ghost predicate Covers(items: seq<Item>, ids: seq<string>, total: real) {
    exists pick: set<nat> :: SumOf(items, pick) == total && ids == IdsOf(items, pick)
  }

  /** The position of the first item whose amount is `target`, or the length of the list. */
  ghost function FirstEqual(items: seq<Item>, target: real): (k: nat)
    ensures k <= |items|
    ensures k < |items| ==> items[k].amount == target
    ensures forall i :: 0 <= i < k ==> items[i].amount != target
  {
    if items == [] then 0
    else
      var k := FirstEqual(items[..|items| - 1], target);
      if k < |items| - 1 || items[|items| - 1].amount == target then k else |items|
  }

  // ----- The table the search builds, in insertion order -----

  datatype Entry = Entry(total: real, ids: seq<string>)

  function Lookup(table: seq<Entry>, t: real): (r: Option<seq<string>>)
    ensures r.None? <==> forall i :: 0 <= i < |table| ==> table[i].total != t
    ensures r.Some? ==> exists i :: 0 <= i < |table| && table[i] == Entry(t, r.value)
  {
    if table == [] then None
    else if table[0].total == t then assert table[0] == Entry(t, table[0].ids); Some(table[0].ids)
    else
      var r := Lookup(table[1..], t);
      assert r.Some? ==> exists i :: 0 <= i < |table[1..]| && table[1..][i] == table[i + 1] == Entry(t, r.value);
      assert forall i :: 0 < i < |table| ==> table[i] == table[1..][i - 1];
      r
  }

  /** The table after the new item has been combined with the first `n` kept totals. */
  ghost function Round(kept: seq<Entry>, item: Item, target: real, n: nat): seq<Entry>
    requires n <= |kept|
  {
    if n == 0 then kept
    else
      var updated := Round(kept, item, target, n - 1);
      var total := kept[n - 1].total + item.amount;
      if total > target || Lookup(updated, total).Some? then updated
      else updated + [Entry(total, kept[n - 1].ids + [item.id])]
  }

  ghost function Table(items: seq<Item>, target: real): seq<Entry> {
    if items == [] then [Entry(0.0, [])]
    else
      var kept := Table(items[..|items| - 1], target);
      Round(kept, items[|items| - 1], target, |kept|)
  }

  lemma TableStart(target: real)
    ensures Table([], target) == [Entry(0.0, [])]
  {
  }

  lemma TableSnoc(items: seq<Item>, i: nat, target: real)
    requires i < |items|
    ensures var kept := Table(items[..i], target);
      Table(items[..i + 1], target) == Round(kept, items[i], target, |kept|)
  {
    assert items[..i + 1][..i] == items[..i];
  }

  /** What the search accepts: a recorded combination of two or more items for the target itself. */
  ghost predicate Finds(items: seq<Item>, target: real) {
    var found := Lookup(Table(items, target), target);
    found.Some? && |found.value| >= 2
  }

  /** The search: at most 24 items, at most `maxStates` totals (when capped), at least two items found. */
  method FindSubset(target: real, items: seq<Item>, maxStates: Option<nat>) returns (r: Option<seq<string>>)
    requires maxStates.Some? ==> maxStates.value >= 1
    ensures
      r == if |items| <= 24 && (maxStates.Some? ==> |Table(items, target)| <= maxStates.value) &&
              Finds(items, target)
           then Lookup(Table(items, target), target) else None
  {
    hide Lookup, Table;
    TableStart(target);
    if |items| > MAX_SUBSET_CANDIDATES {
      return None;
    }
    var reachable := [Entry(0.0, [])];
    for i := 0 to |items|
      invariant reachable == Table(items[..i], target)
      invariant maxStates.Some? ==> |reachable| <= maxStates.value
    {
      var updated := reachable;
      for j := 0 to |reachable|
        invariant updated == Round(reachable, items[i], target, j)
        invariant maxStates.Some? ==> |updated| <= maxStates.value
      {
        var newTotal := reachable[j].total + items[i].amount;
        if newTotal > target || Lookup(updated, newTotal).Some? {
          continue;
        }
        updated := updated + [Entry(newTotal, reachable[j].ids + [items[i].id])];
        if maxStates.Some? && |updated| > maxStates.value {
          RoundGrows(reachable, items[i], target, j + 1, |reachable|);
          TableSnoc(items, i, target);
          TableGrows(items, i + 1, target);
          return None;
        }
      }
      reachable := updated;
      TableSnoc(items, i, target);
    }
    assert items[..|items|] == items;
    var found := Lookup(reachable, target);
    if found.None? || |found.value| < 2 {
      return None;
    }
    return found;
  }

  // ----- The table only grows, so a recorded combination never changes -----

  lemma {:induction false} RoundGrows(kept: seq<Entry>, item: Item, target: real, m: nat, n: nat)
    requires m <= n <= |kept|
    ensures Round(kept, item, target, m) <= Round(kept, item, target, n)
  {
    if m < n {
      RoundGrows(kept, item, target, m, n - 1);
    }
  }

  lemma {:induction false} TableGrows(items: seq<Item>, k: nat, target: real)
    requires k <= |items|
    ensures Table(items[..k], target) <= Table(items, target)
  {
    if k == |items| {
      assert items[..k] == items;
    } else {
      var init := items[..|items| - 1];
      assert init[..k] == items[..k];
      TableGrows(init, k, target);
      var kept := Table(init, target);
      RoundGrows(kept, items[|items| - 1], target, 0, |kept|);
    }
  }

  lemma {:induction false} LookupGrows(a: seq<Entry>, b: seq<Entry>, t: real)
    requires a <= b && Lookup(a, t).Some?
    ensures Lookup(b, t) == Lookup(a, t)
  {
    assert a[0] == b[0];
    if a[0].total != t {
      LookupGrows(a[1..], b[1..], t);
    }
  }

  // ----- Choosing positions -----

  /** Positions beyond the end of the list do not matter. */
  lemma {:induction false} PickFrame(items: seq<Item>, a: set<nat>, b: set<nat>)
    requires forall i :: 0 <= i < |items| ==> (i in a <==> i in b)
    ensures SumOf(items, a) == SumOf(items, b) && IdsOf(items, a) == IdsOf(items, b)
  {
    if items != [] {
      PickFrame(items[..|items| - 1], a, b);
    }
  }

  /** A longer list reaches what its prefix reaches, with or without the last item. */
  lemma CoversSnoc(items: seq<Item>, item: Item, ids: seq<string>, total: real)
    requires Covers(items, ids, total)
    ensures Covers(items + [item], ids, total)
    ensures Covers(items + [item], ids + [item.id], total + item.amount)
  {
    var n := |items|;
    var longer := items + [item];
    assert longer[..n] == items && longer[n] == item;
    var pick :| SumOf(items, pick) == total && ids == IdsOf(items, pick);
    PickFrame(items, pick, pick - {n});
    PickFrame(items, pick, pick + {n});
    assert SumOf(longer, pick - {n}) == total && IdsOf(longer, pick - {n}) == ids + [];
    assert ids + [] == ids;
    assert SumOf(longer, pick + {n}) == total + item.amount && IdsOf(longer, pick + {n}) == ids + [item.id];
  }

  lemma {:induction false} SumNonNegative(items: seq<Item>, pick: set<nat>)
    requires AllPositive(items)
    ensures SumOf(items, pick) >= 0.0
  {
    if items != [] {
      SumNonNegative(items[..|items| - 1], pick);
    }
  }

  // ----- What the table contains -----

  ghost predicate EntriesSound(items: seq<Item>, target: real, table: seq<Entry>) {
    forall i :: 0 <= i < |table| ==> table[i].total <= target && Covers(items, table[i].ids, table[i].total)
  }

  /** Every entry is a witness for a total not above the target. */
  lemma {:induction false} TableIsSound(items: seq<Item>, target: real)
    requires target >= 0.0
    ensures EntriesSound(items, target, Table(items, target))
  {
    if items == [] {
      assert SumOf(items, {}) == 0.0 && IdsOf(items, {}) == [];
    } else {
      var n := |items| - 1;
      TableIsSound(items[..n], target);
      RoundIsSound(items[..n], items[n], target, |Table(items[..n], target)|);
      assert items == items[..n] + [items[n]];
    }
  }

  lemma {:induction false} RoundIsSound(items: seq<Item>, item: Item, target: real, n: nat)
    requires EntriesSound(items, target, Table(items, target)) && n <= |Table(items, target)|
    ensures EntriesSound(items + [item], target, Round(Table(items, target), item, target, n))
  {
    var kept := Table(items, target);
    if n == 0 {
      forall i | 0 <= i < |kept|
        ensures Covers(items + [item], kept[i].ids, kept[i].total)
      {
        CoversSnoc(items, item, kept[i].ids, kept[i].total);
      }
    } else {
      RoundIsSound(items, item, target, n - 1);
      CoversSnoc(items, item, kept[n - 1].ids, kept[n - 1].total);
    }
  }

  /** A round reaches every kept total plus the new amount, up to the target. */
  lemma RoundReaches(kept: seq<Entry>, item: Item, target: real, j: nat)
    requires j < |kept| && kept[j].total + item.amount <= target
    ensures Lookup(Round(kept, item, target, |kept|), kept[j].total + item.amount).Some?
  {
    var total := kept[j].total + item.amount;
    var updated, more := Round(kept, item, target, j), Round(kept, item, target, j + 1);
    if Lookup(updated, total).None? {
      assert more[|more| - 1].total == total;
    }
    RoundGrows(kept, item, target, j + 1, |kept|);
    LookupGrows(more, Round(kept, item, target, |kept|), total);
  }

  /** Every subset sum not above the target has an entry. Dropping totals above the target loses nothing,
      because amounts are positive. */
  lemma {:induction false} TableIsComplete(items: seq<Item>, target: real, pick: set<nat>)
    requires AllPositive(items) && SumOf(items, pick) <= target
    ensures Lookup(Table(items, target), SumOf(items, pick)).Some?
  {
    if items == [] {
      assert Table(items, target)[0].total == 0.0;
    } else {
      var n := |items| - 1;
      var init, item := items[..n], items[n];
      assert item.amount > 0.0 && AllPositive(init);
      TableIsComplete(init, target, pick);
      var kept := Table(init, target);
      var rest := SumOf(init, pick);
      if n in pick {
        var j :| 0 <= j < |kept| && kept[j] == Entry(rest, Lookup(kept, rest).value);
        RoundReaches(kept, item, target, j);
      } else {
        RoundGrows(kept, item, target, 0, |kept|);
        LookupGrows(kept, Table(items, target), rest);
      }
    }
  }

  /** The totals in the table are exactly the subset sums not above the target. */
  lemma TableIsExact(items: seq<Item>, target: real, t: real)
    requires AllPositive(items) && target >= 0.0
    ensures Lookup(Table(items, target), t).Some? <==> t <= target && Reaches(items, t)
    ensures Lookup(Table(items, target), t).Some? ==> Covers(items, Lookup(Table(items, target), t).value, t)
  {
    TableIsSound(items, target);
    if t <= target && Reaches(items, t) {
      var pick :| SumOf(items, pick) == t;
      TableIsComplete(items, target, pick);
    }
  }

  /** One identifier is recorded only for a total that is some item's own amount, none only for zero. */
  lemma {:induction false} ShortCover(items: seq<Item>, pick: set<nat>)
    requires AllPositive(items)
    ensures |IdsOf(items, pick)| == 0 ==> SumOf(items, pick) == 0.0
    ensures |IdsOf(items, pick)| == 1 ==> exists i :: 0 <= i < |items| && items[i].amount == SumOf(items, pick)
  {
    if items != [] {
      var n := |items| - 1;
      ShortCover(items[..n], pick);
      if |IdsOf(items, pick)| == 1 {
        if n in pick {
          assert items[n].amount == SumOf(items, pick);
        } else {
          var i :| 0 <= i < n && items[..n][i].amount == SumOf(items[..n], pick);
          assert items[i].amount == SumOf(items, pick);
        }
      }
    }
  }

  // ----- The main results -----

  /** Completeness, and its exact limit: a combination of two or more items is found if and only if the
      items before the first one equal to the target already contain a combination adding up to it. */
  lemma SearchSucceedsExactlyWhen(items: seq<Item>, target: real)
    requires AllPositive(items) && target > 0.0
    ensures Finds(items, target) <==> Reaches(items[..FirstEqual(items, target)], target)
  {
    var k := FirstEqual(items, target);
    var head := items[..k];
    TableIsExact(head, target, target);
    TableGrows(items, k, target);
    if Reaches(head, target) {
      var ids := Lookup(Table(head, target), target).value;
      var pick :| SumOf(head, pick) == target && ids == IdsOf(head, pick);
      ShortCover(head, pick);
      LookupGrows(Table(head, target), Table(items, target), target);
    } else if k < |items| {
      SingletonIsFirst(items, k, target);
    } else {
      assert head == items;
    }
  }

  /** When an item equal to the target is the first way to reach it, that one item is recorded for good. */
  lemma SingletonIsFirst(items: seq<Item>, k: nat, target: real)
    requires k < |items| && items[k].amount == target
    requires Lookup(Table(items[..k], target), target).None?
    ensures Lookup(Table(items, target), target) == Some([items[k].id])
  {
    hide Lookup;
    var head, upTo := items[..k], items[..k + 1];
    assert upTo[..k] == head && upTo[k] == items[k];
    var kept := Table(head, target);
    TableGrows(head, 0, target);
    assert head[..0] == [] && kept[0] == Entry(0.0, []);
    assert Round(kept, items[k], target, 0) == kept;
    var first := Round(kept, items[k], target, 1);
    assert kept[0].ids + [items[k].id] == [items[k].id] && kept[0].total + items[k].amount == target;
    assert first == kept + [Entry(target, [items[k].id])];
    LookupLast(kept, Entry(target, [items[k].id]));
    RoundGrows(kept, items[k], target, 1, |kept|);
    LookupGrows(first, Table(upTo, target), target);
    TableGrows(items, k + 1, target);
    LookupGrows(Table(upTo, target), Table(items, target), target);
  }

  lemma {:induction false} LookupLast(table: seq<Entry>, e: Entry)
    requires Lookup(table, e.total).None?
    ensures Lookup(table + [e], e.total) == Some(e.ids)
  {
    if table != [] {
      assert (table + [e])[1..] == table[1..] + [e];
      LookupLast(table[1..], e);
    }
  }

  /** With no single item equal to the target, the search is complete: it succeeds if and only if some
      combination adds up to the target, and what it returns is such a combination. */
  lemma SearchIsComplete(items: seq<Item>, target: real)
    requires AllPositive(items) && target > 0.0
    requires forall i :: 0 <= i < |items| ==> items[i].amount != target
    ensures Finds(items, target) <==> Reaches(items, target)
    ensures Finds(items, target) ==> Covers(items, Lookup(Table(items, target), target).value, target)
  {
    var k := FirstEqual(items, target);
    assert k == |items|;
    assert items[..k] == items;
    SearchSucceedsExactlyWhen(items, target);
    TableIsExact(items, target, target);
  }

  /** Pruning totals above the target needs positive amounts: 5 - 3 = 2 is missed. */
  lemma PruningNeedsPositiveAmounts()
    ensures
      var items := [Item("a", 5.0), Item("b", -3.0)];
      Reaches(items, 2.0) && !Finds(items, 2.0)
  {
    var items := [Item("a", 5.0), Item("b", -3.0)];
    var head := items[..1];
    assert head[..0] == [] && head[0] == items[0];
    assert SumOf(head[..0], {0, 1}) == 0.0;
    assert SumOf(head, {0, 1}) == 5.0;
    assert SumOf(items, {0, 1}) == 2.0;
    var start := [Entry(0.0, [])];
    assert Table(head[..0], 2.0) == start;
    assert Round(start, items[0], 2.0, 0) == start && Round(start, items[0], 2.0, 1) == start;
    assert Table(head, 2.0) == start;
    assert Round(start, items[1], 2.0, 0) == start;
    assert Lookup(start, 2.0).None? && Lookup(start, -3.0).None?;
    assert Round(start, items[1], 2.0, 1) == start + [Entry(-3.0, [] + ["b"])];
    assert Table(items, 2.0)[1].total == -3.0 && |Table(items, 2.0)| == 2;
  }

  /** A covering combination names distinct items of the list, when the identifiers are distinct. */
  lemma {:induction false} IdsAreDistinct(items: seq<Item>, pick: set<nat>)
    requires forall i, j :: 0 <= i < j < |items| ==> items[i].id != items[j].id
    ensures forall x :: x in IdsOf(items, pick) ==> exists i :: 0 <= i < |items| && items[i].id == x
    ensures forall i, j :: 0 <= i < j < |IdsOf(items, pick)| ==> IdsOf(items, pick)[i] != IdsOf(items, pick)[j]
  {
    if items != [] {
      var n := |items| - 1;
      IdsAreDistinct(items[..n], pick);
      var before := IdsOf(items[..n], pick);
      forall x | x in before
        ensures x != items[n].id && exists i :: 0 <= i < |items| && items[i].id == x
      {
        var i :| 0 <= i < n && items[..n][i].id == x;
        assert items[i].id == x;
      }
      var ids := IdsOf(items, pick);
      assert ids == before + if n in pick then [items[n].id] else [];
      forall i, j | 0 <= i < j < |ids|
        ensures ids[i] != ids[j]
      {
        assert ids[i] == before[i] && before[i] in before;
      }
    }
  }
}
