/** The average price per mile of a snapshot (`avg_price_per_mile`,
    script.py:9-15) and the count-weighted merge of that average with the
    state left by earlier runs (script.py:78-84). */
module PricePerMile {
  import opened Wrappers
  import opened Trips

  /** A running mean and the number of ratios it averages. `mean == None`
      is a NaN: the mean of no ratios, or a NaN read back from a state file. */
  datatype Aggregate = Aggregate(mean: Option<real>, count: nat)

  /** The mean of `n` values whose sum is `total`. */
  function Mean(total: real, n: nat): (m: real)
    requires n > 0
    ensures m * (n as real) == total
  {
    total / n as real
  }

  /** A row contributes a finite price-per-mile ratio. */
  predicate Priced(t: Trip) {
    t.totalAmount.Some? && t.tripDistance.Some? && t.tripDistance.value != 0.0
  }

  /** `total_amount / trip_distance`, with non-finite cells as `None`. */
  function PriceColumn(b: Batch): (col: seq<Option<real>>)
    ensures |col| == |b|
  {
    seq(|b|, i requires 0 <= i < |b| => Quotient(b[i].totalAmount, b[i].tripDistance))
  }

  /** The ratio series after `dropna`. */
  function PriceSeries(b: Batch): Series {
    DropNonFinite(PriceColumn(b), 0)
  }

  /** `avg_price_per_mile`: mean and count of the surviving ratios. The count
      is the number of rows with a present amount and a present, non-zero
      distance, and an empty series gives (NaN, 0). */
  function AvgPricePerMile(b: Batch): (a: Aggregate)
    ensures a.mean.None? <==> a.count == 0
    ensures a.count == PricedRows(b)
  {
    DefinedPriceColumn(b);
    var s := PriceSeries(b);
    if |s| == 0 then Aggregate(None, 0) else Aggregate(Some(Mean(Sum(s), |s|)), |s|)
  }

  /** Number of rows with a finite ratio, counted row by row. */
  function PricedRows(b: Batch): nat
    decreases |b|
  {
    if |b| == 0 then 0 else (if Priced(b[0]) then 1 else 0) + PricedRows(b[1..])
  }

  /** The series holds `total_amount / trip_distance` for exactly the rows
      whose two fields are present and whose distance is non-zero, at their
      original row index, in row order. */
  lemma PriceSeriesExact(b: Batch)
    ensures var s := PriceSeries(b);
      && (forall e :: e in s ==>
            e.pos < |b| && Priced(b[e.pos])
            && e.value == b[e.pos].totalAmount.value / b[e.pos].tripDistance.value)
      && (forall k, l :: 0 <= k < l < |s| ==> s[k].pos < s[l].pos)
      && (forall i :: 0 <= i < |b| && Priced(b[i]) ==> exists k :: 0 <= k < |s| && s[k].pos == i)
  {
    var col := PriceColumn(b);
    DropNonFiniteSound(col, 0);
    DropNonFiniteOrdered(col, 0);
    DropNonFiniteComplete(col, 0);
    forall e | e in PriceSeries(b)
      ensures e.pos < |b| && Priced(b[e.pos])
      ensures e.value == b[e.pos].totalAmount.value / b[e.pos].tripDistance.value
    {
      assert CellOf(col, 0, e);
    }
    forall i | 0 <= i < |b| && Priced(b[i])
      ensures exists k :: 0 <= k < |PriceSeries(b)| && PriceSeries(b)[k].pos == i
    {
      assert col[i].Some?;
    }
  }

  /** The column of a concatenation is the concatenation of the columns. */
  lemma PriceColumnAppend(a: Batch, b: Batch)
    ensures PriceColumn(a + b) == PriceColumn(a) + PriceColumn(b)
  {
  }

  lemma {:induction false} DefinedPriceColumn(b: Batch)
    ensures Defined(PriceColumn(b)) == PricedRows(b)
    decreases |b|
  {
    if |b| > 0 {
      assert PriceColumn(b)[1..] == PriceColumn(b[1..]);
      DefinedPriceColumn(b[1..]);
    }
  }

  /** Count and sum of the ratios are additive over concatenated batches. */
  lemma PriceSeriesAppend(a: Batch, b: Batch)
    ensures |PriceSeries(a + b)| == |PriceSeries(a)| + |PriceSeries(b)|
    ensures Sum(PriceSeries(a + b)) == Sum(PriceSeries(a)) + Sum(PriceSeries(b))
  {
    PriceColumnAppend(a, b);
    DropNonFiniteAppend(PriceColumn(a), PriceColumn(b), 0);
    DropNonFiniteOffset(PriceColumn(b), |a|, 0);
    SumAppend(PriceSeries(a), DropNonFinite(PriceColumn(b), |a|));
  }

  /** A row with a zero (or missing) distance changes neither the mean nor
      the count, wherever it sits in the batch: it is dropped, not zeroed. */
  lemma UnpricedRowIgnored(a: Batch, t: Trip, b: Batch)
    requires !Priced(t)
    ensures AvgPricePerMile(a + [t] + b) == AvgPricePerMile(a + b)
  {
    PriceSeriesAppend(a + [t], b);
    PriceSeriesAppend(a, [t]);
    PriceSeriesAppend(a, b);
    assert PriceColumn([t]) == [None];
    assert DropNonFinite([None], 0) == [];
    assert PriceSeries([t]) == [];
  }

  /** Ten dollars over two miles and twenty dollars over zero miles give
      (5.0, 1): the second ride's infinite ratio is dropped, not averaged. */
  lemma AvgPricePerMileExample()
    ensures AvgPricePerMile([
      Trip(Some(10.0), Some(2.0), None, None, None, true),
      Trip(Some(20.0), Some(0.0), None, None, None, true)]) == Aggregate(Some(5.0), 1)
  {
    var b := [Trip(Some(10.0), Some(2.0), None, None, None, true),
              Trip(Some(20.0), Some(0.0), None, None, None, true)];
    assert PriceColumn(b) == [Some(5.0), None];
    assert PriceColumn(b)[1..] == [None];
    assert PriceSeries(b) == [Entry(0, 5.0)];
  }

  // ---------------------------------------------------------------------
  // Merge with the previous run's state, as written.

  /** Python truthiness of the stored mean: NaN is truthy, 0.0 is falsy. */
  predicate Truthy(m: Option<real>) {
    m.None? || m.value != 0.0
  }

  /** The guard `if prev_avg and prev_count`: a state was read, its count is
      non-zero, and its mean is anything but 0.0 (a NaN mean passes). */
  predicate HasPrior(prev: Option<Aggregate>)
    ensures HasPrior(prev) <==> prev.Some? && prev.value.count > 0 && prev.value.mean != Some(0.0)
  {
    prev.Some? && Truthy(prev.value.mean) && prev.value.count != 0
  }

  /** The running-mean update of script.py:79-84. A NaN on either side
      (an empty current batch, or a NaN read back) makes the new mean NaN. */
  function MergeMean(prev: Option<Aggregate>, curr: Aggregate): (r: Aggregate)
    ensures r == curr <==> !HasPrior(prev)
    ensures HasPrior(prev) ==> r.count == prev.value.count + curr.count
    ensures HasPrior(prev) ==> (r.mean.Some? <==> prev.value.mean.Some? && curr.mean.Some?)
  {
    if HasPrior(prev) then
      if prev.value.mean.Some? && curr.mean.Some? then WeightedMerge(prev.value, curr)
      else Aggregate(None, prev.value.count + curr.count)
    else curr
  }

  /** After a warm merge the new mean times the new count is the sum of the
      two weighted means: no ratio is lost or counted twice. */
  lemma MergeMeanWeighted(prev: Aggregate, curr: Aggregate)
    requires HasPrior(Some(prev)) && prev.mean.Some? && curr.mean.Some?
    ensures var r := MergeMean(Some(prev), curr);
      r.mean.Some? && r.count == prev.count + curr.count
      && r.mean.value * (r.count as real)
         == curr.mean.value * (curr.count as real) + prev.mean.value * (prev.count as real)
  {
  }

  /** A state of (4.0, 3) and a snapshot of (6.0, 1) merge to (4.5, 4). */
  lemma MergeMeanExample()
    ensures MergeMean(Some(Aggregate(Some(4.0), 3)), Aggregate(Some(6.0), 1)) == Aggregate(Some(4.5), 4)
  {
    WeightedMergeValue(Aggregate(Some(4.0), 3), Aggregate(Some(6.0), 1));
    assert Mean(6.0 * 1.0 + 4.0 * 3.0, 4) * 4.0 == 18.0;
  }

  /** Whenever both states pass the truthiness guard the merge is
      order-independent, a NaN mean on either side included. */
  lemma MergeMeanSymmetric(a: Aggregate, b: Aggregate)
    requires HasPrior(Some(a)) && HasPrior(Some(b))
    ensures MergeMean(Some(a), b) == MergeMean(Some(b), a)
  {
    if a.mean.Some? && b.mean.Some? {
      var x := b.mean.value * (b.count as real) + a.mean.value * (a.count as real);
      var y := a.mean.value * (a.count as real) + b.mean.value * (b.count as real);
      assert x == y;
    }
  }

  /** Merging the statistic of batch `a` (the state) with that of batch `b`
      (the new snapshot) gives the statistic of the two batches together,
      provided the state passes the truthiness guard and `b` has a ratio. */
  lemma MergeMeanOfBatches(a: Batch, b: Batch)
    requires AvgPricePerMile(a).count > 0 && AvgPricePerMile(a).mean != Some(0.0)
    requires AvgPricePerMile(b).count > 0
    ensures MergeMean(Some(AvgPricePerMile(a)), AvgPricePerMile(b)) == AvgPricePerMile(a + b)
  {
    MergeMeanWarm(AvgPricePerMile(a), AvgPricePerMile(b));
    MergeOfSums(a, b);
  }

  /** The warm branch of the merge on two defined means. */
  lemma MergeMeanWarm(prev: Aggregate, curr: Aggregate)
    requires HasPrior(Some(prev)) && prev.mean.Some? && curr.mean.Some?
    ensures MergeMean(Some(prev), curr) == WeightedMerge(prev, curr)
  {
  }

  /** `new_count = prev_count + curr_count` and
      `new_avg = (curr_avg * curr_count + prev_avg * prev_count) / new_count`:
      the new mean times the new count is the sum of the two weighted means. */
  function WeightedMerge(prev: Aggregate, curr: Aggregate): (r: Aggregate)
    requires prev.mean.Some? && curr.mean.Some? && prev.count + curr.count > 0
    ensures r.count == prev.count + curr.count && r.mean.Some?
    ensures r.mean.value * (r.count as real)
      == curr.mean.value * (curr.count as real) + prev.mean.value * (prev.count as real)
  {
    Aggregate(
      Some(Mean(curr.mean.value * (curr.count as real) + prev.mean.value * (prev.count as real),
                prev.count + curr.count)),
      prev.count + curr.count)
  }

  /** The statistic of `a + b` is the weighted merge of those of `a` and `b`
      when both have ratios. */
  lemma MergeOfSums(a: Batch, b: Batch)
    requires |PriceSeries(a)| > 0 && |PriceSeries(b)| > 0
    ensures WeightedMerge(AvgPricePerMile(a), AvgPricePerMile(b)) == AvgPricePerMile(a + b)
  {
    PriceSeriesAppend(a, b);
    MeanTimesCount(a);
    MeanTimesCount(b);
    WeightedMergeOfSums(AvgPricePerMile(a), AvgPricePerMile(b), Sum(PriceSeries(a)), Sum(PriceSeries(b)));
  }

  /** The mean of a non-empty batch times its count is the sum of its ratios. */
  lemma MeanTimesCount(b: Batch)
    requires |PriceSeries(b)| > 0
    ensures AvgPricePerMile(b).mean.value * (AvgPricePerMile(b).count as real) == Sum(PriceSeries(b))
  {
  }

  /** Recombining two means weighted by their counts gives the mean of the union. */
  lemma WeightedMergeOfSums(p: Aggregate, c: Aggregate, sp: real, sc: real)
    requires p.mean.Some? && c.mean.Some? && p.count > 0 && c.count > 0
    requires p.mean.value * (p.count as real) == sp && c.mean.value * (c.count as real) == sc
    ensures WeightedMerge(p, c) == Aggregate(Some(Mean(sp + sc, p.count + c.count)), p.count + c.count)
  {
    var x := c.mean.value * (c.count as real) + p.mean.value * (p.count as real);
    WeightedMergeValue(p, c);
    assert x == sp + sc;
  }

  lemma WeightedMergeValue(p: Aggregate, c: Aggregate)
    requires p.mean.Some? && c.mean.Some? && p.count > 0 && c.count > 0
    ensures WeightedMerge(p, c) == Aggregate(
      Some(Mean(c.mean.value * (c.count as real) + p.mean.value * (p.count as real), p.count + c.count)),
      p.count + c.count)
  {
    var w := WeightedMerge(p, c);
    var m := Mean(c.mean.value * (c.count as real) + p.mean.value * (p.count as real), p.count + c.count);
    assert w.mean.value == m;
    assert w.mean == Some(m);
  }

  /** A prior state whose mean is 0.0 is discarded by the guard: a batch of
      three free rides followed by a six-dollar mile merges to (6.0, 1)
      instead of the mean of all four rides, (1.5, 4). */
  lemma MergeMeanDropsZeroPrior()
    ensures var a := [Free(), Free(), Free()];
      var b := [Trip(Some(6.0), Some(1.0), None, None, None, true)];
      && AvgPricePerMile(a) == Aggregate(Some(0.0), 3)
      && AvgPricePerMile(a + b) == Aggregate(Some(1.5), 4)
      && MergeMean(Some(AvgPricePerMile(a)), AvgPricePerMile(b)) == Aggregate(Some(6.0), 1)
      && MergeMeanIntended(Some(AvgPricePerMile(a)), AvgPricePerMile(b)) == AvgPricePerMile(a + b)
  {
    var a := [Free(), Free(), Free()];
    var b := [Trip(Some(6.0), Some(1.0), None, None, None, true)];
    assert PriceColumn(a) == [Some(0.0), Some(0.0), Some(0.0)];
    assert PriceColumn(b) == [Some(6.0)];
    assert PriceSeries(a) == [Entry(0, 0.0), Entry(1, 0.0), Entry(2, 0.0)];
    assert PriceSeries(b) == [Entry(0, 6.0)];
    PriceSeriesAppend(a, b);
    MergeMeanIntendedOfBatches(a, b);
  }

  /** A zero-priced one-mile ride. */
  function Free(): (t: Trip)
    ensures Priced(t)
  {
    Trip(Some(0.0), Some(1.0), None, None, None, true)
  }

  /** A snapshot with no finite ratio merged into a valid state turns the
      running mean into NaN while the count is kept. */
  lemma MergeMeanEmptyBatchIsNaN(prev: Aggregate, b: Batch)
    requires HasPrior(Some(prev))
    requires PricedRows(b) == 0
    ensures MergeMean(Some(prev), AvgPricePerMile(b)) == Aggregate(None, prev.count)
  {
  }

  // ---------------------------------------------------------------------
  // Merge as intended.

  /** A state with a positive count and a defined mean is a prior state
      whatever the mean's value. */
  predicate ValidPrior(prev: Option<Aggregate>) {
    prev.Some? && prev.value.count > 0 && prev.value.mean.Some?
  }

  /** The corrected merge: a stored mean of 0.0 is a real prior state, a
      batch without ratios contributes nothing and the stored state is kept,
      and a state that is missing or holds no ratios is replaced by the
      current statistic. */
  function MergeMeanIntended(prev: Option<Aggregate>, curr: Aggregate): (r: Aggregate)
    ensures !ValidPrior(prev) ==> r == curr
    ensures ValidPrior(prev) && (curr.count == 0 || curr.mean.None?) ==> r == prev.value
    ensures ValidPrior(prev) ==>
      r.count == prev.value.count + (if curr.mean.Some? then curr.count else 0)
    ensures ValidPrior(prev) ==> r.mean.Some?
    ensures ValidPrior(prev) && curr.count > 0 && curr.mean.Some? ==>
      r.mean.value * (r.count as real)
        == curr.mean.value * (curr.count as real) + prev.value.mean.value * (prev.value.count as real)
  {
    if ValidPrior(prev) then
      var p := prev.value;
      if curr.count == 0 || curr.mean.None? then p else WeightedMerge(p, curr)
    else curr
  }

  /** For every pair of batches, merging their statistics is the statistic of
      the concatenated batch: the state never needs the raw history. */
  lemma MergeMeanIntendedOfBatches(a: Batch, b: Batch)
    ensures MergeMeanIntended(Some(AvgPricePerMile(a)), AvgPricePerMile(b)) == AvgPricePerMile(a + b)
  {
    PriceSeriesAppend(a, b);
    if |PriceSeries(a)| > 0 && |PriceSeries(b)| > 0 {
      MergeMeanIntendedWarm(AvgPricePerMile(a), AvgPricePerMile(b));
      MergeOfSums(a, b);
    } else if |PriceSeries(a)| == 0 {
      assert Sum(PriceSeries(a)) == 0.0;
    } else {
      assert Sum(PriceSeries(b)) == 0.0;
    }
  }

  /** The warm branch of the intended merge on two non-empty statistics. */
  lemma MergeMeanIntendedWarm(prev: Aggregate, curr: Aggregate)
    requires prev.count > 0 && curr.count > 0 && prev.mean.Some? && curr.mean.Some?
    ensures MergeMeanIntended(Some(prev), curr) == WeightedMerge(prev, curr)
  {
  }
}
