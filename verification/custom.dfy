/** The custom indicator of a snapshot (`custom_indicator`, script.py:26-32)
    and the append-only log of per-run series it is written to
    (script.py:107-119). */
module CustomIndicator {
  import opened Wrappers
  import opened Trips

  /** A row yields a finite `(tip_amount + extra) / trip_distance`. */
  predicate Indicated(t: Trip) {
    t.tipAmount.Some? && t.extra.Some? && t.tripDistance.Some? && t.tripDistance.value != 0.0
  }

  /** `(tip_amount + extra) / trip_distance`, with non-finite cells as `None`. */
  function IndicatorColumn(b: Batch): (col: seq<Option<real>>)
    ensures |col| == |b|
  {
    seq(|b|, i requires 0 <= i < |b| => Quotient(Plus(b[i].tipAmount, b[i].extra), b[i].tripDistance))
  }

  /** `custom_indicator`: the indicator series after `dropna`, keeping row
      indices. It has at most one value per row, and only rows with the three
      fields present and a non-zero distance contribute one. */
  function Indicator(b: Batch): (s: Series)
    ensures |s| <= |b|
    ensures forall e :: e in s ==> e.pos < |b| && Indicated(b[e.pos])
    ensures forall k, l :: 0 <= k < l < |s| ==> s[k].pos < s[l].pos
  {
    var col := IndicatorColumn(b);
    var t := DropNonFinite(col, 0);
    IncreasingPositions(col, t);
    DropNonFiniteSound(col, 0);
    assert forall e :: e in t ==> CellOf(col, 0, e);
    t
  }

  lemma IncreasingPositions(col: seq<Option<real>>, t: Series)
    requires t == DropNonFinite(col, 0)
    ensures forall k, l :: 0 <= k < l < |t| ==> t[k].pos < t[l].pos
  {
    DropNonFiniteOrdered(col, 0);
  }

  /** The series holds `(tip_amount + extra) / trip_distance` for exactly
      the rows with the three fields present and a non-zero distance, under
      their original row index, in row order; no excluded row appears. */
  lemma IndicatorExact(b: Batch)
    ensures var s := Indicator(b);
      && (forall e :: e in s ==>
            e.pos < |b| && Indicated(b[e.pos])
            && e.value == (b[e.pos].tipAmount.value + b[e.pos].extra.value) / b[e.pos].tripDistance.value)
      && (forall k, l :: 0 <= k < l < |s| ==> s[k].pos < s[l].pos)
      && (forall i :: 0 <= i < |b| && Indicated(b[i]) ==> exists k :: 0 <= k < |s| && s[k].pos == i)
  {
    var col := IndicatorColumn(b);
    DropNonFiniteSound(col, 0);
    DropNonFiniteOrdered(col, 0);
    DropNonFiniteComplete(col, 0);
    forall e | e in Indicator(b)
      ensures e.pos < |b| && Indicated(b[e.pos])
      ensures e.value == (b[e.pos].tipAmount.value + b[e.pos].extra.value) / b[e.pos].tripDistance.value
    {
      assert CellOf(col, 0, e);
    }
    forall i | 0 <= i < |b| && Indicated(b[i])
      ensures exists k :: 0 <= k < |Indicator(b)| && Indicator(b)[k].pos == i
    {
      assert col[i].Some?;
    }
  }

  /** Tips plus extras of 2 + 1 over two miles and 1.5 + 0.5 over one mile
      give the series `{0: 1.5, 1: 2.0}`, keyed by row index. */
  lemma IndicatorExample()
    ensures Indicator([
      Trip(None, Some(2.0), Some(2.0), Some(1.0), None, true),
      Trip(None, Some(1.0), Some(1.5), Some(0.5), None, true)]) == [Entry(0, 1.5), Entry(1, 2.0)]
  {
    var b := [Trip(None, Some(2.0), Some(2.0), Some(1.0), None, true),
              Trip(None, Some(1.0), Some(1.5), Some(0.5), None, true)];
    assert IndicatorColumn(b) == [Some(1.5), Some(2.0)];
    assert IndicatorColumn(b)[1..] == [Some(2.0)];
    assert IndicatorColumn(b)[1..][1..] == [];
  }

  // ---------------------------------------------------------------------
  // The custom-series log.

  /** One run's `{ymd: values}` document. */
  datatype LogEntry = LogEntry(date: string, values: Series)

  /** The documents of the custom file, in the order they were written. */
  type Log = seq<LogEntry>

  /** One run's write: append to the previous file's documents when there is
      one (mode 'a'), otherwise start a file holding just this run. */
  function AppendRun(prev: Option<Log>, ymd: string, values: Series): (r: Log)
    ensures |r| == |prev.GetOr([])| + 1
    ensures r[..|r| - 1] == prev.GetOr([])
    ensures r[|r| - 1] == LogEntry(ymd, values)
  {
    match prev
    case Some(log) => log + [LogEntry(ymd, values)]
    case None => [LogEntry(ymd, values)]
  }

  /** The run dates recorded in a log, in order. */
  function Dates(log: Log): (ds: seq<string>)
    ensures |ds| == |log|
    ensures forall i :: 0 <= i < |log| ==> ds[i] == log[i].date
  {
    seq(|log|, i requires 0 <= i < |log| => log[i].date)
  }

  /** Earlier documents are never rewritten, and the new date comes last. */
  lemma AppendRunKeepsHistory(prev: Log, ymd: string, values: Series)
    ensures Dates(AppendRun(Some(prev), ymd, values)) == Dates(prev) + [ymd]
    ensures forall i :: 0 <= i < |prev| ==> AppendRun(Some(prev), ymd, values)[i] == prev[i]
  {
    var r := AppendRun(Some(prev), ymd, values);
    assert r[..|prev|] == prev;
    forall i | 0 <= i < |prev| ensures r[i] == prev[i] {
      assert r[..|prev|][i] == r[i];
    }
  }
}
