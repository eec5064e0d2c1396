/** How far stated confidence is from observed accuracy: in three bands, in twenty bins, in slices of equal mass. */
module Calibration {
  import opened Wrappers
  import opened Sums
  import opened Lists
  import opened Quotients

  /** `corrected` says that a user changed the suggestion; an applied, uncorrected suggestion was right. */
  datatype Log = Log(applied: bool, confidence: real, corrected: bool)

  const MEDIUM_CONFIDENCE := 0.70
  const HIGH_CONFIDENCE := 0.90
  const AUTO_COMMIT_THRESHOLD := 0.95
  const CALIBRATION_BINS := 20

  function IsApplied(r: Log): bool { r.applied }
  function ConfidenceOf(r: Log): real { r.confidence }
  function Hit(r: Log): real { if r.corrected then 0.0 else 1.0 }

  /** How much more was claimed than delivered. */
  function GapOf(r: Log): real { r.confidence - Hit(r) }

  function Abs(x: real): real { if x >= 0.0 then x else -x }

  function Gap(rows: seq<Log>): real { Total(rows, GapOf) }

  lemma {:induction false} GapSplits(rows: seq<Log>)
    ensures Gap(rows) == Total(rows, ConfidenceOf) - Total(rows, Hit)
    ensures 0.0 <= Total(rows, Hit) <= |rows| as real
  {
    if rows != [] {
      GapSplits(rows[..|rows| - 1]);
    }
  }

  // ----- Calibration error of any grouping -----

  function AbsSum(groups: seq<seq<Log>>): real {
    if groups == [] then 0.0 else AbsSum(groups[..|groups| - 1]) + Abs(Gap(groups[|groups| - 1]))
  }

  function SignedSum(groups: seq<seq<Log>>): real {
    if groups == [] then 0.0 else SignedSum(groups[..|groups| - 1]) + Gap(groups[|groups| - 1])
  }

  function Flatten(groups: seq<seq<Log>>): seq<Log> {
    if groups == [] then [] else Flatten(groups[..|groups| - 1]) + groups[|groups| - 1]
  }

  /** A group's weighted gap is its summed gap over the number of all logs. */
  lemma WeightedGap(n: real, total: real, correct: real, confidence: real)
    requires n > 0.0 && total > 0.0
    ensures
      var gap := confidence / n - correct / n;
      && (n / total) * gap == (confidence - correct) / total
      && (n / total) * Abs(gap) == Abs(confidence - correct) / total
  {
    var c, h := confidence / n, correct / n;
    assert c * n == confidence && h * n == correct;
    var gap := c - h;
    assert gap * n == confidence - correct by {
      Distributed(c, h, n);
    }
    Reweighted(n, total, gap);
    Reweighted(n, total, -gap);
    assert (-gap) * n == -(confidence - correct) by {
      assert (-gap) * n == -(gap * n);
    }
    SignOfProduct(gap, n);
  }

  lemma Distributed(a: real, b: real, c: real)
    ensures (a - b) * c == a * c - b * c
  {
  }

  lemma Reweighted(n: real, total: real, gap: real)
    requires total > 0.0
    ensures (n / total) * gap == (gap * n) / total
  {
    var w := n / total;
    assert w * total == n;
    assert (w * gap) * total == gap * n by {
      assert (w * gap) * total == gap * (w * total);
    }
    Quotient(gap * n, total, w * gap);
  }

  /** The share of one group in both sums. */
  method GroupShare(rows: seq<Log>, total: nat) returns (error: real, signed: real)
    requires total > 0 && |rows| > 0
    ensures error == Abs(Gap(rows)) / total as real && signed == Gap(rows) / total as real
  {
    var n, all := |rows| as real, total as real;
    var accuracy, confidence := Total(rows, Hit) / n, Total(rows, ConfidenceOf) / n;
    WeightedGap(n, all, Total(rows, Hit), Total(rows, ConfidenceOf));
    GapSplits(rows);
    error := (n / all) * Abs(confidence - accuracy);
    signed := (n / all) * (confidence - accuracy);
  }

  method EceFromGroups(groups: seq<seq<Log>>, total: nat) returns (ece: real, signed: real)
    requires total > 0
    ensures ece == AbsSum(groups) / total as real && signed == SignedSum(groups) / total as real
  {
    ece, signed := 0.0, 0.0;
    ghost var absolute, bias := 0.0, 0.0;
    var i := 0;
    while i < |groups|
      invariant 0 <= i <= |groups|
      invariant absolute == AbsSum(groups[..i]) && bias == SignedSum(groups[..i])
      invariant ece == absolute / total as real && signed == bias / total as real
    {
      assert groups[..i + 1][..i] == groups[..i];
      var rows := groups[i];
      if |rows| > 0 {
        var error, share := GroupShare(rows, total);
        AddQuotients(absolute, Abs(Gap(rows)), total as real);
        AddQuotients(bias, Gap(rows), total as real);
        ece, signed := ece + error, signed + share;
      }
      absolute, bias := absolute + Abs(Gap(rows)), bias + Gap(rows);
      i := i + 1;
    }
    assert groups[..i] == groups;
  }

  lemma AddQuotients(x: real, y: real, n: real)
    requires n > 0.0
    ensures x / n + y / n == (x + y) / n
  {
  }

  /** No grouping hides an overall bias: the signed sum is bounded by the sum of the absolute gaps. */
  lemma {:induction false} SignedWithinAbsolute(groups: seq<seq<Log>>)
    ensures Abs(SignedSum(groups)) <= AbsSum(groups)
  {
    if groups != [] {
      SignedWithinAbsolute(groups[..|groups| - 1]);
    }
  }

  lemma {:induction false} SignedOfFlattened(groups: seq<seq<Log>>)
    ensures SignedSum(groups) == Gap(Flatten(groups))
  {
    if groups != [] {
      SignedOfFlattened(groups[..|groups| - 1]);
      TotalConcat(Flatten(groups[..|groups| - 1]), groups[|groups| - 1], GapOf);
    }
  }

  // ----- Twenty bins of equal width -----

  /** The index computed for a confidence: cut toward zero, at most the last bin. */
  function BinIndex(confidence: real, bins: nat): int {
    var x := confidence * bins as real;
    var i := if x >= 0.0 then x.Floor else -(-x).Floor;
    if i < bins as int - 1 then i else bins as int - 1
  }

  /** An index below zero counts from the last bin; one below that is no bin at all. */
  predicate HasBin(confidence: real, bins: nat) {
    -(bins as int) <= BinIndex(confidence, bins)
  }

  function BinOf(confidence: real, bins: nat): (bin: nat)
    requires HasBin(confidence, bins) && bins > 0
    ensures bin < bins
  {
    var i := BinIndex(confidence, bins);
    if i < 0 then bins + i else i
  }

  predicate AllHaveBins(rows: seq<Log>, bins: nat) {
    forall i :: 0 <= i < |rows| ==> HasBin(rows[i].confidence, bins)
  }

  predicate NoNegative(rows: seq<Log>) {
    forall i :: 0 <= i < |rows| ==> rows[i].confidence >= 0.0
  }

  /** Twenty bins miss a confidence only when it is -1.05 or less. */
  lemma MissesNoBinExactlyWhen(confidence: real)
    ensures HasBin(confidence, 20) <==> confidence > -1.05
  {
    var x := confidence * 20.0;
    assert x < 0.0 ==> ((-x).Floor <= 20 <==> -x < 21.0);
  }

  lemma NoNegativeHasBins(rows: seq<Log>)
    requires NoNegative(rows)
    ensures AllHaveBins(rows, 20)
  {
    forall i | 0 <= i < |rows|
      ensures HasBin(rows[i].confidence, CALIBRATION_BINS)
    {
      MissesNoBinExactlyWhen(rows[i].confidence);
    }
  }

  function Put(groups: seq<seq<Log>>, i: nat, r: Log): seq<seq<Log>>
    requires i < |groups|
  {
    groups[i := groups[i] + [r]]
  }

  function WidthGroups(rows: seq<Log>, bins: nat): (groups: seq<seq<Log>>)
    requires AllHaveBins(rows, bins) && bins > 0
    ensures |groups| == bins
  {
    if rows == [] then seq(bins, _ => [])
    else
      var init, last := rows[..|rows| - 1], rows[|rows| - 1];
      Put(WidthGroups(init, bins), BinOf(last.confidence, bins), last)
  }

  /** Each log goes into the bin of its confidence; `None` is the index error of a confidence without a bin. */
  method GroupByWidth(rows: seq<Log>, bins: nat) returns (r: Option<seq<seq<Log>>>)
    requires bins > 0
    ensures r.Some? <==> AllHaveBins(rows, bins)
    ensures r.Some? ==> r.value == WidthGroups(rows, bins)
  {
    hide BinIndex;
    var groups: seq<seq<Log>> := seq(bins, _ => []);
    assert groups == WidthGroups(rows[..0], bins);
    var i := 0;
    while i < |rows|
      invariant 0 <= i <= |rows|
      invariant AllHaveBins(rows[..i], bins) && groups == WidthGroups(rows[..i], bins)
    {
      assert rows[..i + 1][..i] == rows[..i];
      if !HasBin(rows[i].confidence, bins) {
        return None;
      }
      var bin := BinOf(rows[i].confidence, bins);
      groups := groups[bin := groups[bin] + [rows[i]]];
      i := i + 1;
    }
    assert rows[..i] == rows;
    return Some(groups);
  }

  /** The summed gap and the summed absolute gaps of the groups with numbers in [lo, hi). */
  function RangeSum(groups: seq<seq<Log>>, lo: nat, hi: nat): real
    requires hi <= |groups|
    decreases hi
  {
    if hi <= lo then 0.0 else RangeSum(groups, lo, hi - 1) + Gap(groups[hi - 1])
  }

  function RangeAbs(groups: seq<seq<Log>>, lo: nat, hi: nat): real
    requires hi <= |groups|
    decreases hi
  {
    if hi <= lo then 0.0 else RangeAbs(groups, lo, hi - 1) + Abs(Gap(groups[hi - 1]))
  }

  lemma {:induction false} RangePut(groups: seq<seq<Log>>, lo: nat, hi: nat, i: nat, r: Log)
    requires hi <= |groups| && i < |groups|
    ensures RangeSum(Put(groups, i, r), lo, hi) == RangeSum(groups, lo, hi) + if lo <= i < hi then GapOf(r) else 0.0
    decreases hi
  {
    if lo < hi {
      RangePut(groups, lo, hi - 1, i, r);
      TotalSnoc(groups[i], r, GapOf);
    }
  }

  lemma {:induction false} RangeTriangle(groups: seq<seq<Log>>, lo: nat, hi: nat)
    requires hi <= |groups|
    ensures Abs(RangeSum(groups, lo, hi)) <= RangeAbs(groups, lo, hi)
    decreases hi
  {
    if lo < hi {
      RangeTriangle(groups, lo, hi - 1);
    }
  }

  lemma {:induction false} RangesJoin(groups: seq<seq<Log>>, lo: nat, mid: nat, hi: nat)
    requires lo <= mid <= hi <= |groups|
    ensures RangeAbs(groups, lo, hi) == RangeAbs(groups, lo, mid) + RangeAbs(groups, mid, hi)
    ensures RangeSum(groups, lo, hi) == RangeSum(groups, lo, mid) + RangeSum(groups, mid, hi)
    decreases hi
  {
    if mid < hi {
      RangesJoin(groups, lo, mid, hi - 1);
    }
  }

  lemma {:induction false} RangeIsWhole(groups: seq<seq<Log>>, n: nat)
    requires n <= |groups|
    ensures RangeAbs(groups, 0, n) == AbsSum(groups[..n]) && RangeSum(groups, 0, n) == SignedSum(groups[..n])
  {
    if n > 0 {
      RangeIsWhole(groups, n - 1);
      assert groups[..n][..n - 1] == groups[..n - 1];
    }
  }

  lemma {:induction false} EmptyRange(bins: nat, lo: nat, hi: nat)
    requires hi <= bins
    ensures RangeSum(seq(bins, _ => []), lo, hi) == 0.0
    decreases hi
  {
    if lo < hi {
      EmptyRange(bins, lo, hi - 1);
    }
  }

  // ----- Three bands -----

  datatype Band = Low | Medium | High

  function BandOf(confidence: real): Band {
    if confidence >= HIGH_CONFIDENCE then High else if confidence >= MEDIUM_CONFIDENCE then Medium else Low
  }

  /** The band's interval, closed below and open above. */
  function Bounds(band: Band): (real, real) {
    match band
    case Low => (0.0, MEDIUM_CONFIDENCE)
    case Medium => (MEDIUM_CONFIDENCE, HIGH_CONFIDENCE)
    case High => (HIGH_CONFIDENCE, 1.01)
  }

  function InBand(band: Band): Log -> bool {
    (r: Log) => Bounds(band).0 <= r.confidence < Bounds(band).1
  }

  function BandRows(rows: seq<Log>, band: Band): seq<Log> { Filter(rows, InBand(band)) }

  /** The bins a band is made of. */
  function FirstBin(band: Band): nat {
    match band case Low => 0 case Medium => 14 case High => 18
  }

  function EndBin(band: Band): nat {
    match band case Low => 14 case Medium => 18 case High => 20
  }

  predicate Expressible(rows: seq<Log>) {
    forall i :: 0 <= i < |rows| ==> 0.0 <= rows[i].confidence < 1.01
  }

  /** Every band edge is a bin edge. */
  lemma BinsRefineBands(confidence: real, band: Band)
    requires 0.0 <= confidence < 1.01
    ensures HasBin(confidence, 20)
    ensures Bounds(band).0 <= confidence < Bounds(band).1
       <==> FirstBin(band) <= BinOf(confidence, 20) < EndBin(band)
    ensures BandOf(confidence) == band <==> Bounds(band).0 <= confidence < Bounds(band).1
  {
  }

  lemma {:induction false} BandIsBins(rows: seq<Log>, band: Band)
    requires AllHaveBins(rows, 20) && Expressible(rows)
    ensures Gap(BandRows(rows, band)) == RangeSum(WidthGroups(rows, 20), FirstBin(band), EndBin(band))
  {
    if rows == [] {
      EmptyRange(CALIBRATION_BINS, FirstBin(band), EndBin(band));
    } else {
      var init, last := rows[..|rows| - 1], rows[|rows| - 1];
      BandIsBins(init, band);
      BinsRefineBands(last.confidence, band);
      RangePut(
        WidthGroups(init, CALIBRATION_BINS), FirstBin(band), EndBin(band), BinOf(last.confidence, CALIBRATION_BINS),
        last);
      FilteredGap(rows, InBand(band));
      assert InBand(band)(last) == (Bounds(band).0 <= last.confidence < Bounds(band).1);
    }
  }

  lemma FilteredGap(rows: seq<Log>, p: Log -> bool)
    requires rows != []
    ensures
      var init, last := rows[..|rows| - 1], rows[|rows| - 1];
      Gap(Filter(rows, p)) == Gap(Filter(init, p)) + if p(last) then GapOf(last) else 0.0
  {
    var kept := Filter(rows[..|rows| - 1], p);
    TotalSnoc(kept, rows[|rows| - 1], GapOf);
    assert kept + [] == kept;
  }

  function CoarseSum(rows: seq<Log>): real {
    Abs(Gap(BandRows(rows, Low))) + Abs(Gap(BandRows(rows, Medium))) + Abs(Gap(BandRows(rows, High)))
  }

  /** The coarse error is never above the binned one: opposite gaps can cancel inside a band, but not inside a bin. */
  lemma CoarseIsNeverAboveBinned(rows: seq<Log>)
    requires Expressible(rows)
    ensures AllHaveBins(rows, 20)
    ensures CoarseSum(rows) <= AbsSum(WidthGroups(rows, 20))
  {
    NoNegativeHasBins(rows);
    var groups := WidthGroups(rows, CALIBRATION_BINS);
    BandIsBins(rows, Low);
    BandIsBins(rows, Medium);
    BandIsBins(rows, High);
    RangeTriangle(groups, 0, 14);
    RangeTriangle(groups, 14, 18);
    RangeTriangle(groups, 18, 20);
    RangesJoin(groups, 0, 14, 18);
    RangesJoin(groups, 0, 18, 20);
    RangeIsWhole(groups, 20);
    assert groups[..20] == groups;
  }

  /** Every log in range is in one band, so the gaps of the bands add up to the overall gap. */
  lemma {:induction false} BandsKeepTheGap(rows: seq<Log>)
    requires Expressible(rows)
    ensures Gap(rows) == Gap(BandRows(rows, Low)) + Gap(BandRows(rows, Medium)) + Gap(BandRows(rows, High))
  {
    if rows != [] {
      hide GapOf;
      BandsKeepTheGap(rows[..|rows| - 1]);
      FilteredGap(rows, InBand(Low));
      FilteredGap(rows, InBand(Medium));
      FilteredGap(rows, InBand(High));
    }
  }

  /** The coarse error is never below the overall gap either. */
  lemma CoarseIsNeverBelowTheGap(rows: seq<Log>)
    requires Expressible(rows)
    ensures Abs(Gap(rows)) <= CoarseSum(rows)
  {
    hide Gap, BandRows;
    BandsKeepTheGap(rows);
  }

  /** It can be far below: one right and one wrong suggestion whose gaps cancel in the low band. */
  lemma CoarseCanHideEverything()
    ensures
      var rows := [Log(true, 0.4, true), Log(true, 0.6, false)];
      && AllHaveBins(rows, 20) && CoarseSum(rows) == 0.0
      && AbsSum(WidthGroups(rows, 20)) >= 0.8
  {
    var a, b := Log(true, 0.4, true), Log(true, 0.6, false);
    NoNegativeHasBins([a, b]);
    CoarseOfTwo(a, b);
    BinnedOfTwo(a, b);
  }

  lemma BinnedOfTwo(a: Log, b: Log)
    requires a == Log(true, 0.4, true) && b == Log(true, 0.6, false)
    requires AllHaveBins([a, b], 20)
    ensures AbsSum(WidthGroups([a, b], 20)) >= 0.8
  {
    NoNegativeHasBins([a]);
    var none, one, two := WidthGroups([], 20), WidthGroups([a], 20), WidthGroups([a, b], 20);
    GroupsOfTwo(a, b);
    LowerHalf(none, one, two, a, b);
    hide Put, WidthGroups;
    RangeTriangle(two, 0, 10);
    RangeTriangle(two, 10, 20);
    RangesJoin(two, 0, 10, 20);
    RangeIsWhole(two, 20);
    assert two[..20] == two;
  }

  lemma GroupsOfTwo(a: Log, b: Log)
    requires a == Log(true, 0.4, true) && b == Log(true, 0.6, false)
    requires AllHaveBins([a], 20) && AllHaveBins([a, b], 20)
    ensures WidthGroups([], 20) == seq(20, _ => [])
    ensures WidthGroups([a], 20) == Put(WidthGroups([], 20), 8, a)
    ensures WidthGroups([a, b], 20) == Put(WidthGroups([a], 20), 12, b)
  {
    hide Put;
    assert [a, b][..1] == [a] && [a][..0] == [];
    assert BinOf(0.4, 20) == 8 && BinOf(0.6, 20) == 12;
  }

  lemma LowerHalf(none: seq<seq<Log>>, one: seq<seq<Log>>, two: seq<seq<Log>>, a: Log, b: Log)
    requires none == seq(20, _ => []) && one == Put(none, 8, a) && two == Put(one, 12, b)
    ensures RangeSum(two, 0, 10) == GapOf(a) && RangeSum(two, 10, 20) == GapOf(b)
  {
    hide RangeSum, GapOf;
    EmptyRange(20, 0, 10);
    EmptyRange(20, 10, 20);
    RangePut(none, 0, 10, 8, a);
    RangePut(none, 10, 20, 8, a);
    RangePut(one, 0, 10, 12, b);
    RangePut(one, 10, 20, 12, b);
  }

  lemma CoarseOfTwo(a: Log, b: Log)
    requires a == Log(true, 0.4, true) && b == Log(true, 0.6, false)
    ensures CoarseSum([a, b]) == 0.0
  {
    BandOfTwo(a, b, Low);
    BandOfTwo(a, b, Medium);
    BandOfTwo(a, b, High);
  }

  lemma BandOfTwo(a: Log, b: Log, band: Band)
    requires a == Log(true, 0.4, true) && b == Log(true, 0.6, false)
    ensures Gap(BandRows([a, b], band)) == 0.0
  {
    assert [a, b][..1] == [a] && [a][..0] == [];
    FilteredGap([a], InBand(band));
    FilteredGap([a, b], InBand(band));
    assert InBand(band)(a) == InBand(band)(b);
  }

  /** The signed gap of the bins is that of all logs. */
  lemma {:induction false} BinsKeepTheGap(rows: seq<Log>, bins: nat)
    requires AllHaveBins(rows, bins) && bins > 0
    ensures SignedSum(WidthGroups(rows, bins)) == Gap(rows)
  {
    var groups := WidthGroups(rows, bins);
    RangeIsWhole(groups, bins);
    assert groups[..bins] == groups;
    if rows == [] {
      EmptyRange(bins, 0, bins);
    } else {
      var init, last := rows[..|rows| - 1], rows[|rows| - 1];
      BinsKeepTheGap(init, bins);
      var before := WidthGroups(init, bins);
      RangeIsWhole(before, bins);
      assert before[..bins] == before;
      RangePut(before, 0, bins, BinOf(last.confidence, bins), last);
    }
  }

  function AtThreshold(r: Log): bool { r.confidence >= AUTO_COMMIT_THRESHOLD }

  /** The suggestions applied without review are exactly the last bin: the threshold is a bin edge. */
  lemma {:induction false} AutoCommitIsTheLastBin(rows: seq<Log>)
    requires NoNegative(rows)
    ensures AllHaveBins(rows, 20)
    ensures WidthGroups(rows, 20)[19] == Filter(rows, AtThreshold)
  {
    NoNegativeHasBins(rows);
    if rows != [] {
      var init, last := rows[..|rows| - 1], rows[|rows| - 1];
      AutoCommitIsTheLastBin(init);
      assert BinOf(last.confidence, CALIBRATION_BINS) == 19 <==> last.confidence >= AUTO_COMMIT_THRESHOLD;
      assert AtThreshold(last) <==> last.confidence >= AUTO_COMMIT_THRESHOLD;
    }
  }

  // ----- Slices of equal mass -----

  predicate Ascending(rows: seq<Log>) {
    forall i, j :: 0 <= i < j < |rows| ==> rows[i].confidence <= rows[j].confidence
  }

  function Insert(rows: seq<Log>, r: Log): (s: seq<Log>)
    ensures multiset(s) == multiset(rows) + multiset{r}
  {
    if rows == [] then [r]
    else
      var init, last := rows[..|rows| - 1], rows[|rows| - 1];
      assert rows == init + [last];
      if last.confidence <= r.confidence then rows + [r] else Insert(init, r) + [last]
  }

  /** A stable sort by confidence. */
  function Ordered(rows: seq<Log>): (s: seq<Log>)
    ensures multiset(s) == multiset(rows)
  {
    if rows == [] then []
    else
      assert rows == rows[..|rows| - 1] + [rows[|rows| - 1]];
      Insert(Ordered(rows[..|rows| - 1]), rows[|rows| - 1])
  }

  lemma {:induction false} InsertKeepsOrder(rows: seq<Log>, r: Log)
    requires Ascending(rows)
    ensures Ascending(Insert(rows, r))
  {
    if rows != [] {
      var init, last := rows[..|rows| - 1], rows[|rows| - 1];
      if last.confidence > r.confidence {
        InsertKeepsOrder(init, r);
        var s := Insert(init, r);
        forall i | 0 <= i < |s|
          ensures s[i].confidence <= last.confidence
        {
          assert s[i] in multiset(s);
          assert s[i] in init || s[i] == r;
        }
      }
    }
  }

  lemma {:induction false} OrderedIsAscending(rows: seq<Log>)
    ensures Ascending(Ordered(rows)) && |Ordered(rows)| == |rows|
  {
    assert |multiset(Ordered(rows))| == |multiset(rows)|;
    if rows != [] {
      OrderedIsAscending(rows[..|rows| - 1]);
      InsertKeepsOrder(Ordered(rows[..|rows| - 1]), rows[|rows| - 1]);
    }
  }

  /** Where slice `i` starts when the first `remainder` slices get one log more than `size`. */
  function Start(i: nat, size: nat, remainder: nat): nat {
    if i == 0 then 0 else Start(i - 1, size, remainder) + size + if i - 1 < remainder then 1 else 0
  }

  lemma {:induction false} StartClosedForm(i: nat, size: nat, remainder: nat)
    ensures Start(i, size, remainder) == i * size + if i < remainder then i else remainder
  {
    if i > 0 {
      StartClosedForm(i - 1, size, remainder);
    }
  }

  lemma {:induction false} StartGrows(i: nat, j: nat, size: nat, remainder: nat)
    requires i <= j
    ensures Start(i, size, remainder) <= Start(j, size, remainder)
  {
    if i < j {
      StartGrows(i, j - 1, size, remainder);
    }
  }

  /** The last slice ends with the last log. */
  lemma StartsEnd(total: nat, k: nat)
    requires k > 0
    ensures Start(k, total / k, total % k) == total
  {
    StartClosedForm(k, total / k, total % k);
    assert total == k * (total / k) + total % k;
  }

  /** Slices in turn cover the sorted logs, and two slices differ by one log at most. */
  ghost predicate EqualMass(groups: seq<seq<Log>>, rows: seq<Log>, k: nat) {
    && |groups| == k
    && Flatten(groups) == rows
    && forall i, j {:trigger groups[i], groups[j]} :: 0 <= i < j < k ==> |groups[j]| <= |groups[i]| <= |groups[j]| + 1
  }

  ghost predicate Sized(groups: seq<seq<Log>>, size: nat, remainder: nat) {
    forall i {:trigger groups[i]} :: 0 <= i < |groups| ==> |groups[i]| == size + if i < remainder then 1 else 0
  }

  method SliceByMass(ordered: seq<Log>, bins: nat) returns (groups: seq<seq<Log>>)
    requires |ordered| > 0 && bins > 0
    ensures EqualMass(groups, ordered, if bins < |ordered| then bins else |ordered|)
  {
    var total := |ordered|;
    var k := if bins < total then bins else total;
    StartsEnd(total, k);
    groups := SliceInto(ordered, k, total / k, total % k);
  }

  method SliceInto(ordered: seq<Log>, k: nat, size: nat, remainder: nat) returns (groups: seq<seq<Log>>)
    requires Start(k, size, remainder) == |ordered|
    ensures EqualMass(groups, ordered, k)
  {
    groups := [];
    var start, i := 0, 0;
    while i < k
      invariant 0 <= i <= k && start == Start(i, size, remainder) <= |ordered|
      invariant |groups| == i && Flatten(groups) == ordered[..start] && Sized(groups, size, remainder)
    {
      StartGrows(i + 1, k, size, remainder);
      var end := start + size + if i < remainder then 1 else 0;
      var slice := ordered[start..end];
      FlattenSnoc(groups, slice);
      assert ordered[..end] == ordered[..start] + slice;
      groups := groups + [slice];
      start := end;
      i := i + 1;
    }
    assert ordered[..start] == ordered;
  }

  lemma FlattenSnoc(groups: seq<seq<Log>>, g: seq<Log>)
    ensures Flatten(groups + [g]) == Flatten(groups) + g
  {
    assert (groups + [g])[..|groups|] == groups;
  }

  // ----- The report -----

  datatype BandReport = BandReport(band: Band, count: nat, means: Option<(real, real, real)>)

  datatype AutoCommit = AutoCommit(count: nat, accuracy: Option<real>, confidence: Option<real>, overconfident: bool)

  datatype Stats = Stats(
    appliedTotal: nat, ece: real, bands: seq<BandReport>, eceBinned: real, eceAdaptive: real, signedGap: real,
    autoCommit: AutoCommit)

  function Mean(rows: seq<Log>, f: Log -> real): real
    requires rows != []
  {
    Total(rows, f) / |rows| as real
  }

  /** Count, mean confidence, accuracy and gap of a band; an empty band has only its count. */
  function ReportOn(rows: seq<Log>, band: Band): BandReport {
    BandReport(band, |rows|,
      if rows == [] then None
      else Some((Mean(rows, ConfidenceOf), Mean(rows, Hit), Abs(Mean(rows, ConfidenceOf) - Mean(rows, Hit)))))
  }

  function AutoCommitOf(rows: seq<Log>): AutoCommit {
    if rows == [] then AutoCommit(0, None, None, false)
    else
      AutoCommit(
        |rows|, Some(Mean(rows, Hit)), Some(Mean(rows, ConfidenceOf)), Mean(rows, Hit) < AUTO_COMMIT_THRESHOLD)
  }

  ghost predicate IsReport(applied: seq<Log>, s: Stats)
    requires AllHaveBins(applied, 20)
  {
    var n := |applied| as real;
    && s.appliedTotal == |applied|
    && s.bands == [
         ReportOn(BandRows(applied, Low), Low), ReportOn(BandRows(applied, Medium), Medium),
         ReportOn(BandRows(applied, High), High)]
    && s.autoCommit == AutoCommitOf(Filter(applied, AtThreshold))
    && if applied == [] then s.ece == s.eceBinned == s.eceAdaptive == s.signedGap == 0.0
       else
         && s.ece == CoarseSum(applied) / n
         && s.eceBinned == AbsSum(WidthGroups(applied, 20)) / n
         && s.signedGap == SignedSum(WidthGroups(applied, 20)) / n
         && IsAdaptive(applied, s.eceAdaptive)
  }

  /** The error over some slices of equal mass of the sorted logs. */
  ghost predicate IsAdaptive(applied: seq<Log>, error: real)
    requires applied != []
  {
    exists groups: seq<seq<Log>> ::
      && EqualMass(groups, Ordered(applied), if 20 < |applied| then 20 else |applied|)
      && error == AbsSum(groups) / |applied| as real
  }

  method BandError(rows: seq<Log>, band: Band, total: nat) returns (report: BandReport, error: real)
    requires |rows| <= total
    ensures report == ReportOn(rows, band)
    ensures total > 0 ==> error == Abs(Gap(rows)) / total as real
  {
    error := 0.0;
    if |rows| > 0 {
      var signed: real;
      error, signed := GroupShare(rows, total);
    }
    report := ReportOn(rows, band);
  }

  datatype Fine = Fine(binned: real, adaptive: real, signed: real)

  method FineGrained(applied: seq<Log>) returns (r: Option<Fine>)
    ensures r.Some? <==> AllHaveBins(applied, 20)
    ensures r.Some? && applied == [] ==> r.value == Fine(0.0, 0.0, 0.0)
    ensures r.Some? && applied != [] ==>
      && r.value.binned == AbsSum(WidthGroups(applied, 20)) / |applied| as real
      && r.value.signed == SignedSum(WidthGroups(applied, 20)) / |applied| as real
      && IsAdaptive(applied, r.value.adaptive)
  {
    hide BinIndex;
    var total := |applied|;
    if total == 0 {
      return Some(Fine(0.0, 0.0, 0.0));
    }
    var widthGroups := GroupByWidth(applied, CALIBRATION_BINS);
    if widthGroups.None? {
      return None;
    }
    var binned, signed := EceFromGroups(widthGroups.value, total);
    OrderedIsAscending(applied);
    var massGroups := SliceByMass(Ordered(applied), CALIBRATION_BINS);
    var adaptive, unused := EceFromGroups(massGroups, total);
    return Some(Fine(binned, adaptive, signed));
  }

  method CoarseGrained(applied: seq<Log>) returns (bands: seq<BandReport>, ece: real)
    ensures bands == [
      ReportOn(BandRows(applied, Low), Low), ReportOn(BandRows(applied, Medium), Medium),
      ReportOn(BandRows(applied, High), High)]
    ensures ece == if applied == [] then 0.0 else CoarseSum(applied) / |applied| as real
  {
    var total := |applied|;
    FilterLength(applied, InBand(Low));
    FilterLength(applied, InBand(Medium));
    FilterLength(applied, InBand(High));
    var low, lowError := BandError(BandRows(applied, Low), Low, total);
    var medium, mediumError := BandError(BandRows(applied, Medium), Medium, total);
    var high, highError := BandError(BandRows(applied, High), High, total);
    bands := [low, medium, high];
    ece := 0.0;
    if total > 0 {
      ece := 0.0 + lowError + mediumError + highError;
      AddThree(
        Abs(Gap(BandRows(applied, Low))), Abs(Gap(BandRows(applied, Medium))), Abs(Gap(BandRows(applied, High))),
        total as real);
    }
  }

  lemma AddThree(x: real, y: real, z: real, n: real)
    requires n > 0.0
    ensures 0.0 + x / n + y / n + z / n == (x + y + z) / n
  {
    AddQuotients(x, y, n);
    AddQuotients(x + y, z, n);
  }

  /** The whole report over the applied logs; `None` is the index error of a confidence without a bin. */
  method ComputeCalibrationStats(logs: seq<Log>) returns (r: Option<Stats>)
    ensures r.Some? <==> AllHaveBins(Filter(logs, IsApplied), 20)
    ensures r.Some? ==> IsReport(Filter(logs, IsApplied), r.value)
  {
    hide BinIndex, HasBin, AllHaveBins, WidthGroups, AbsSum, SignedSum, CoarseSum, BandRows, ReportOn, IsAdaptive;
    var applied := Filter(logs, IsApplied);
    var bands, ece := CoarseGrained(applied);
    var fine := FineGrained(applied);
    if fine.None? {
      return None;
    }
    return Some(Stats(
      |applied|, ece, bands, fine.value.binned, fine.value.adaptive, fine.value.signed,
      AutoCommitOf(Filter(applied, AtThreshold))));
  }

  lemma {:induction false} FilterLength(rows: seq<Log>, p: Log -> bool)
    ensures |Filter(rows, p)| <= |rows|
  {
    if rows != [] {
      FilterLength(rows[..|rows| - 1], p);
    }
  }

  // ----- What the report means -----

  /** The confidences a band is made of. */
  lemma BandRowsAre(rows: seq<Log>, r: Log)
    ensures r in BandRows(rows, Low) <==> r in rows && 0.0 <= r.confidence < 0.70
    ensures r in BandRows(rows, Medium) <==> r in rows && 0.70 <= r.confidence < 0.90
    ensures r in BandRows(rows, High) <==> r in rows && 0.90 <= r.confidence < 1.01
  {
    FilterMembers(rows, InBand(Low));
    FilterMembers(rows, InBand(Medium));
    FilterMembers(rows, InBand(High));
  }

  function LeftAlone(r: Log): bool { !r.corrected }

  /** Accuracy counts the suggestions that nobody corrected. */
  lemma {:induction false} HitsAreCounted(rows: seq<Log>)
    ensures Total(rows, Hit) == |Filter(rows, LeftAlone)| as real
  {
    if rows != [] {
      HitsAreCounted(rows[..|rows| - 1]);
    }
  }

  lemma MeanMeans(rows: seq<Log>, f: Log -> real)
    requires rows != []
    ensures Mean(rows, f) * |rows| as real == Total(rows, f)
  {
    var n := |rows| as real;
    assert Total(rows, f) / n * n == Total(rows, f);
  }

  /** What is said of the logs of one band. */
  lemma BandReportMeans(rows: seq<Log>, band: Band)
    ensures
      var report := ReportOn(rows, band);
      && report.band == band && report.count == |rows| && (report.means.Some? <==> rows != [])
      && (rows != [] ==>
            var (confidence, accuracy, gap) := report.means.value;
            && confidence * |rows| as real == Total(rows, ConfidenceOf)
            && accuracy * |rows| as real == |Filter(rows, LeftAlone)| as real
            && gap == if confidence >= accuracy then confidence - accuracy else accuracy - confidence)
  {
    if rows != [] {
      MeanMeans(rows, ConfidenceOf);
      MeanMeans(rows, Hit);
      HitsAreCounted(rows);
    }
  }

  /** The suggestions that are taken over unseen. */
  lemma TakenUnseen(applied: seq<Log>, r: Log)
    ensures r in Filter(applied, AtThreshold) <==> r in applied && r.confidence >= 0.95
  {
    FilterMembers(applied, AtThreshold);
  }

  /** What is said of them, and that the warning means fewer than 0.95 of them were right. */
  lemma AutoCommitMeans(auto: seq<Log>)
    ensures
      var a := AutoCommitOf(auto);
      && a.count == |auto| && (a.accuracy.Some? <==> auto != []) && (a.confidence.Some? <==> auto != [])
      && (auto != [] ==>
            && a.accuracy.value * |auto| as real == |Filter(auto, LeftAlone)| as real
            && a.confidence.value * |auto| as real == Total(auto, ConfidenceOf))
      && (a.overconfident <==> auto != [] && a.accuracy.value < 0.95)
  {
    if auto != [] {
      MeanMeans(auto, ConfidenceOf);
      MeanMeans(auto, Hit);
      HitsAreCounted(auto);
    }
  }

  lemma DividedInOrder(x: real, y: real, n: real)
    requires n > 0.0 && x <= y
    ensures x / n <= y / n
  {
  }

  lemma DividedAbs(x: real, n: real)
    requires n > 0.0
    ensures Abs(x / n) == Abs(x) / n
  {
    Quotient(-x, n, -(x / n));
  }

  /** Slices of equal mass keep the overall gap too. */
  lemma SlicesKeepTheGap(applied: seq<Log>, groups: seq<seq<Log>>, k: nat)
    requires EqualMass(groups, Ordered(applied), k)
    ensures SignedSum(groups) == Gap(applied)
  {
    SignedOfFlattened(groups);
    TotalPermutation(Ordered(applied), applied, GapOf);
  }

  /** The error over any groups is not below their summed gap. */
  lemma ErrorIsNotBelow(groups: seq<seq<Log>>, n: real)
    requires n > 0.0
    ensures Abs(SignedSum(groups) / n) <= AbsSum(groups) / n
  {
    hide SignedSum, AbsSum;
    SignedWithinAbsolute(groups);
    DividedAbs(SignedSum(groups), n);
    DividedInOrder(Abs(SignedSum(groups)), AbsSum(groups), n);
  }

  lemma AdaptiveIsNotBelow(applied: seq<Log>, error: real)
    requires applied != [] && IsAdaptive(applied, error)
    ensures Abs(Gap(applied) / |applied| as real) <= error
  {
    hide SignedSum, AbsSum, Gap, EqualMass;
    var n := |applied| as real;
    var k := if CALIBRATION_BINS < |applied| then CALIBRATION_BINS else |applied|;
    var slices: seq<seq<Log>> :| EqualMass(slices, Ordered(applied), k) && error == AbsSum(slices) / n;
    SlicesKeepTheGap(applied, slices, k);
    ErrorIsNotBelow(slices, n);
  }

  lemma GapIsMeanGap(applied: seq<Log>)
    requires applied != []
    ensures Gap(applied) / |applied| as real == Mean(applied, ConfidenceOf) - Mean(applied, Hit)
  {
    GapSplits(applied);
    AddQuotients(Gap(applied), Total(applied, Hit), |applied| as real);
  }

  lemma CoarseBetween(applied: seq<Log>)
    requires applied != [] && Expressible(applied)
    ensures AllHaveBins(applied, 20)
    ensures var n := |applied| as real;
      Abs(Gap(applied) / n) <= CoarseSum(applied) / n <= AbsSum(WidthGroups(applied, 20)) / n
  {
    hide Gap, CoarseSum, AbsSum, WidthGroups;
    var n := |applied| as real;
    CoarseIsNeverAboveBinned(applied);
    CoarseIsNeverBelowTheGap(applied);
    DividedInOrder(CoarseSum(applied), AbsSum(WidthGroups(applied, CALIBRATION_BINS)), n);
    DividedInOrder(Abs(Gap(applied)), CoarseSum(applied), n);
    DividedAbs(Gap(applied), n);
  }

  /**
    * The signed gap is mean confidence less accuracy, and neither fine error is below its absolute value. With every
    * confidence in range the coarse error lies between that value and the binned error.
    */
  lemma ReportIsConsistent(applied: seq<Log>, s: Stats)
    requires AllHaveBins(applied, 20) && applied != [] && IsReport(applied, s)
    ensures s.signedGap == Mean(applied, ConfidenceOf) - Mean(applied, Hit)
    ensures Abs(s.signedGap) <= s.eceBinned && Abs(s.signedGap) <= s.eceAdaptive
    ensures Expressible(applied) ==> Abs(s.signedGap) <= s.ece <= s.eceBinned
  {
    hide SignedSum, AbsSum, WidthGroups, CoarseSum, Gap, IsAdaptive, Mean, ReportOn, AutoCommitOf, BandRows;
    BinsKeepTheGap(applied, CALIBRATION_BINS);
    ErrorIsNotBelow(WidthGroups(applied, CALIBRATION_BINS), |applied| as real);
    AdaptiveIsNotBelow(applied, s.eceAdaptive);
    GapIsMeanGap(applied);
    if Expressible(applied) {
      CoarseBetween(applied);
    }
  }
}
