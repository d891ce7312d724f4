/** One run of the aggregation script (script.py:44-45, 78-119): the date
    key, the names of the files a run writes, and the new state computed from
    the snapshot and the state left by the previous run. */
module Script {
  import opened Wrappers
  import opened Trips
  import opened PricePerMile
  import opened Payments
  import opened CustomIndicator

  function Min(a: nat, b: nat): nat {
    if a <= b then a else b
  }

  /** Python's `s[lo:hi]` for non-negative bounds: both are clamped to the
      length and an inverted range is empty. */
  function Slice(s: string, lo: nat, hi: nat): (r: string)
    ensures |r| <= |s|
  {
    var i, j := Min(lo, |s|), Min(hi, |s|);
    if i <= j then s[i..j] else []
  }

  /** Python's `s[lo:]`. */
  function Suffix(s: string, lo: nat): string {
    s[Min(lo, |s|)..]
  }

  /** `(date[:4], date[4:6], date[6:])`. */
  function DateParts(date: string): (string, string, string) {
    (Slice(date, 0, 4), Slice(date, 4, 6), Suffix(date, 6))
  }

  /** `year + month + day`: the run key is the date argument itself, for any
      argument, however short. */
  function Ymd(date: string): (ymd: string)
    ensures ymd == date
  {
    var (year, month, day) := DateParts(date);
    assert year + month + day == date by {
      var n := |date|;
      if n <= 4 {
        assert year == date && month == [] && day == [];
      } else if n <= 6 {
        assert date == date[..4] + date[4..n];
      } else {
        assert date == date[..4] + date[4..6] + date[6..];
      }
    }
    year + month + day
  }

  /** For an eight-character argument the parts are YYYY, MM and DD. */
  lemma DatePartsOfFullDate(date: string)
    requires |date| == 8
    ensures DateParts(date) == (date[..4], date[4..6], date[6..])
  {
  }

  function AvgFileName(ymd: string): string {
    ymd + "_yellow_taxi_avg.json"
  }

  function DistribFileName(ymd: string): string {
    ymd + "_yellow_taxi_distrib.json"
  }

  function CustomFileName(ymd: string): string {
    ymd + "_yellow_taxi_custom.json"
  }

  predicate EndsWith(s: string, suffix: string) {
    |suffix| <= |s| && s[|s| - |suffix|..] == suffix
  }

  /** The kinds of state file the scan of the working directory recognises,
      by the `endswith` tests of script.py:62, 68 and 74. */
  datatype Kind = AvgKind | DistribKind | CustomKind

  function KindsOf(name: string): set<Kind> {
    (if EndsWith(name, "avg.json") then {AvgKind} else {})
    + (if EndsWith(name, "distrib.json") then {DistribKind} else {})
    + (if EndsWith(name, "custom.json") then {CustomKind} else {})
  }

  lemma EndsWithAppend(p: string, s: string, suffix: string)
    requires EndsWith(s, suffix)
    ensures EndsWith(p + s, suffix)
  {
    assert (p + s)[|p + s| - |suffix|..] == s[|s| - |suffix|..];
  }

  lemma NotEndsWithAppend(p: string, s: string, suffix: string)
    requires |suffix| <= |s| && !EndsWith(s, suffix)
    ensures !EndsWith(p + s, suffix)
  {
    assert (p + s)[|p + s| - |suffix|..] == s[|s| - |suffix|..];
  }

  /** Each file a run writes is recognised by the next run as exactly its
      own kind, whatever the date key. */
  lemma AvgNameRecognised(ymd: string)
    ensures KindsOf(AvgFileName(ymd)) == {AvgKind}
  {
    var a := "_yellow_taxi_avg.json";
    assert a[|a| - 8..] == "avg.json";
    assert a[|a| - 12..] == "taxi_avg.json"[1..];
    assert a[|a| - 11..] == "xi_avg.json";
    EndsWithAppend(ymd, a, "avg.json");
    NotEndsWithAppend(ymd, a, "distrib.json");
    NotEndsWithAppend(ymd, a, "custom.json");
  }

  lemma DistribNameRecognised(ymd: string)
    ensures KindsOf(DistribFileName(ymd)) == {DistribKind}
  {
    var d := "_yellow_taxi_distrib.json";
    assert d[|d| - 12..] == "distrib.json";
    assert d[|d| - 8..] == "rib.json";
    assert d[|d| - 11..] == "istrib.json";
    EndsWithAppend(ymd, d, "distrib.json");
    NotEndsWithAppend(ymd, d, "avg.json");
    NotEndsWithAppend(ymd, d, "custom.json");
  }

  lemma CustomNameRecognised(ymd: string)
    ensures KindsOf(CustomFileName(ymd)) == {CustomKind}
  {
    var c := "_yellow_taxi_custom.json";
    assert c[|c| - 11..] == "custom.json";
    assert c[|c| - 8..] == "tom.json";
    assert c[|c| - 12..] == "_custom.json";
    EndsWithAppend(ymd, c, "custom.json");
    NotEndsWithAppend(ymd, c, "avg.json");
    NotEndsWithAppend(ymd, c, "distrib.json");
  }

  // ---------------------------------------------------------------------
  // One run.

  /** What the previous run left: each part absent on a cold start. */
  datatype State = State(avg: Option<Aggregate>, distrib: Option<Stored>, custom: Option<Log>)

  /** The three files a run writes, by name and content. */
  datatype Output = Output(
    avgFile: string, avg: Aggregate,
    distribFile: string, distrib: Stored,
    customFile: string, custom: Log)

  const ColdStart := State(None, None, None)

  /** One invocation with argument `date` on snapshot `b`. */
  function Run(date: string, b: Batch, prior: State): (out: Output)
    ensures out.avgFile == date + "_yellow_taxi_avg.json"
    ensures out.distribFile == date + "_yellow_taxi_distrib.json"
    ensures out.customFile == date + "_yellow_taxi_custom.json"
    ensures out.avg.count == (if HasPrior(prior.avg) then prior.avg.value.count else 0) + PricedRows(b)
    ensures out.distrib.Keys == (if prior.distrib.Some? then prior.distrib.value.Keys else {})
                                + PaymentDistribution(b).Keys
    ensures out.custom == prior.custom.GetOr([]) + [LogEntry(date, Indicator(b))]
  {
    var ymd := Ymd(date);
    Output(
      AvgFileName(ymd), MergeMean(prior.avg, AvgPricePerMile(b)),
      DistribFileName(ymd), MergeDistribution(prior.distrib, PaymentDistribution(b)),
      CustomFileName(ymd), AppendRun(prior.custom, ymd, Indicator(b)))
  }

  /** On a cold start every output is the snapshot's own statistic. */
  lemma RunColdStart(date: string, b: Batch)
    ensures Run(date, b, ColdStart).avg == AvgPricePerMile(b)
    ensures Run(date, b, ColdStart).distrib == Store(PaymentDistribution(b))
    ensures Run(date, b, ColdStart).custom == [LogEntry(date, Indicator(b))]
  {
  }

  /** The state the next run reads back from the files written: all three
      files are present, so the next run merges into this one's distribution
      and log, and merges the mean exactly when this one's state passes the
      truthiness guard. */
  function Reload(out: Output): (s: State)
    ensures s.distrib.Some? && s.custom.Some?
    ensures HasPrior(s.avg) <==> out.avg.count > 0 && out.avg.mean != Some(0.0)
  {
    State(Some(out.avg), Some(out.distrib), Some(out.custom))
  }

  /** One snapshot: the date argument and the batch read for it. */
  datatype Snapshot = Snapshot(date: string, batch: Batch)

  /** The state after running the snapshots in order, starting from `s`. */
  function Replay(runs: seq<Snapshot>, s: State): State
    decreases |runs|
  {
    if |runs| == 0 then s
    else
      var last := runs[|runs| - 1];
      Reload(Run(last.date, last.batch, Replay(runs[..|runs| - 1], s)))
  }

  /** The log entries the snapshots produce, one per run. */
  function Entries(runs: seq<Snapshot>): (es: Log)
    ensures |es| == |runs|
  {
    seq(|runs|, i requires 0 <= i < |runs| => LogEntry(runs[i].date, Indicator(runs[i].batch)))
  }

  lemma EntriesSnoc(runs: seq<Snapshot>)
    requires |runs| > 0
    ensures var last := runs[|runs| - 1];
      Entries(runs) == Entries(runs[..|runs| - 1]) + [LogEntry(last.date, Indicator(last.batch))]
  {
  }

  /** One more run appends its entry to the log. */
  lemma ReplayStep(runs: seq<Snapshot>, s: State)
    requires |runs| > 0
    ensures var last := runs[|runs| - 1];
      Replay(runs, s).custom
        == Some(Replay(runs[..|runs| - 1], s).custom.GetOr([]) + [LogEntry(last.date, Indicator(last.batch))])
  {
  }

  /** After any sequence of runs the custom log is the initial log followed
      by one entry per run, in run order: dates are only ever added. */
  lemma {:induction false} ReplayLog(runs: seq<Snapshot>, s: State)
    requires |runs| > 0
    ensures Replay(runs, s).custom == Some(s.custom.GetOr([]) + Entries(runs))
    decreases |runs|
  {
    var init := runs[..|runs| - 1];
    var last := runs[|runs| - 1];
    ReplayStep(runs, s);
    if |init| > 0 {
      ReplayLog(init, s);
    } else {
      assert init == [];
      assert Entries(init) == [];
    }
    EntriesSnoc(runs);
    LogSnoc(Replay(init, s).custom, s.custom.GetOr([]), Entries(init),
      LogEntry(last.date, Indicator(last.batch)), Entries(runs));
  }

  lemma LogSnoc(prev: Option<Log>, base: Log, done: Log, e: LogEntry, whole: Log)
    requires prev.GetOr([]) == base + done
    requires whole == done + [e]
    ensures Some(prev.GetOr([]) + [e]) == Some(base + whole)
  {
    assert (base + done) + [e] == base + (done + [e]);
  }

  /** From a cold start, N runs leave exactly N dated entries. */
  lemma ReplayDates(runs: seq<Snapshot>)
    requires |runs| > 0
    ensures Replay(runs, ColdStart).custom.Some?
    ensures Dates(Replay(runs, ColdStart).custom.value) == RunDates(runs)
  {
    ReplayLog(runs, ColdStart);
    assert [] + Entries(runs) == Entries(runs);
    EntriesDates(runs);
  }

  lemma EntriesDates(runs: seq<Snapshot>)
    ensures Dates(Entries(runs)) == RunDates(runs)
  {
    var ds := Dates(Entries(runs));
    assert forall i :: 0 <= i < |runs| ==> ds[i] == runs[i].date;
  }

  /** The date arguments of the runs, in order. */
  function RunDates(runs: seq<Snapshot>): (ds: seq<string>)
    ensures |ds| == |runs|
  {
    seq(|runs|, i requires 0 <= i < |runs| => runs[i].date)
  }

  // ---------------------------------------------------------------------
  // The running statistics with the intended merges.

  /** All rows seen over a sequence of snapshots. */
  function Flatten(batches: seq<Batch>): Batch
    decreases |batches|
  {
    if |batches| == 0 then [] else Flatten(batches[..|batches| - 1]) + batches[|batches| - 1]
  }

  /** The running mean after merging each snapshot in turn with the intended merge. */
  function MeanHistory(batches: seq<Batch>): Option<Aggregate>
    decreases |batches|
  {
    if |batches| == 0 then None
    else Some(MergeMeanIntended(MeanHistory(batches[..|batches| - 1]), AvgPricePerMile(batches[|batches| - 1])))
  }

  /** The running distribution after merging each snapshot in turn with the intended merge. */
  function DistributionHistory(batches: seq<Batch>): Option<Distribution>
    decreases |batches|
  {
    if |batches| == 0 then None
    else Some(MergeDistributionIntended(DistributionHistory(batches[..|batches| - 1]),
                                        PaymentDistribution(batches[|batches| - 1])))
  }

  /** The incremental mean is the mean over every row ever seen. */
  lemma {:induction false} MeanHistoryExact(batches: seq<Batch>)
    requires |batches| > 0
    ensures MeanHistory(batches) == Some(AvgPricePerMile(Flatten(batches)))
    decreases |batches|
  {
    var init := batches[..|batches| - 1];
    if |init| > 0 {
      MeanHistoryExact(init);
      MergeMeanIntendedOfBatches(Flatten(init), batches[|batches| - 1]);
    } else {
      assert init == [];
      assert MeanHistory(init) == None;
      assert Flatten(init) == [];
      assert Flatten(batches) == batches[0];
    }
  }

  /** The incremental distribution is the distribution of every row ever seen. */
  lemma {:induction false} DistributionHistoryExact(batches: seq<Batch>)
    requires |batches| > 0
    ensures DistributionHistory(batches) == Some(PaymentDistribution(Flatten(batches)))
    decreases |batches|
  {
    var init := batches[..|batches| - 1];
    if |init| > 0 {
      DistributionHistoryExact(init);
      DistributionAppend(Flatten(init), batches[|batches| - 1]);
    } else {
      assert init == [];
      assert DistributionHistory(init) == None;
      assert Flatten(init) == [];
      assert Flatten(batches) == batches[0];
    }
  }
}
