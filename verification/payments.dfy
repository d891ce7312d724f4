/** The payment distribution of a snapshot (`payment_distribution`,
    script.py:18-23) and its merge with the distribution left by earlier runs
    (script.py:86-90). */
module Payments {
  import opened Wrappers
  import opened Trips
  import opened Decimal

  /** String key of a payment label to number of counted rows. */
  type Distribution = map<string, nat>

  /** A distribution as stored between runs. Once pandas has added two
      series a count may be NaN, written here as `None`. */
  type Stored = map<string, Option<nat>>

  /** Row `t` falls in the group whose string key is `k`; a null label is in no group. */
  predicate InGroup(t: Trip, k: string) {
    t.paymentType.Some? && Show(t.paymentType.value) == k
  }

  /** Row `t` is counted in group `k`: `count()` counts the non-null cells
      of the batch's first column. */
  predicate CountedIn(t: Trip, k: string) {
    InGroup(t, k) && t.anchor
  }

  /** The group keys: the string forms of the labels present. */
  function Groups(b: Batch): set<string> {
    set i | 0 <= i < |b| && b[i].paymentType.Some? :: Show(b[i].paymentType.value)
  }

  /** Number of rows counted in group `k`. */
  function GroupSize(b: Batch, k: string): nat
    decreases |b|
  {
    if |b| == 0 then 0
    else GroupSize(b[..|b| - 1], k) + (if CountedIn(b[|b| - 1], k) then 1 else 0)
  }

  /** `groupby('payment_type').count()[first column]` with a string index. */
  function PaymentDistribution(b: Batch): (d: Distribution)
    ensures b == [] ==> d == map[]
  {
    map k | k in Groups(b) :: GroupSize(b, k)
  }

  /** Count of group `k` in `d`, zero when `d` has no such group. */
  function Get(d: Distribution, k: string): nat {
    if k in d then d[k] else 0
  }

  /** The distribution after one more row. */
  function AddRow(d: Distribution, t: Trip): (r: Distribution)
    ensures t.paymentType.None? ==> r == d
    ensures t.paymentType.Some? ==> r.Keys == d.Keys + {Show(t.paymentType.value)}
  {
    if t.paymentType.Some? then
      var k := Show(t.paymentType.value);
      d[k := Get(d, k) + (if t.anchor then 1 else 0)]
    else d
  }

  lemma GroupsSnoc(b: Batch, t: Trip)
    ensures Groups(b + [t]) == Groups(b) + (if t.paymentType.Some? then {Show(t.paymentType.value)} else {})
  {
    var bt := b + [t];
    forall k | k in Groups(bt) ensures k in Groups(b) || (t.paymentType.Some? && k == Show(t.paymentType.value)) {
      var i :| 0 <= i < |bt| && bt[i].paymentType.Some? && Show(bt[i].paymentType.value) == k;
      if i < |b| {
        assert b[i] == bt[i];
      }
    }
    forall k | k in Groups(b) ensures k in Groups(bt) {
      var i :| 0 <= i < |b| && b[i].paymentType.Some? && Show(b[i].paymentType.value) == k;
      assert bt[i] == b[i];
    }
    if t.paymentType.Some? {
      assert bt[|b|] == t;
    }
  }

  /** Counting one more row updates exactly that row's group. */
  lemma DistributionSnoc(b: Batch, t: Trip)
    ensures PaymentDistribution(b + [t]) == AddRow(PaymentDistribution(b), t)
  {
    var bt := b + [t];
    assert bt[..|bt| - 1] == b;
    GroupsSnoc(b, t);
    var d, e := PaymentDistribution(b), PaymentDistribution(bt);
    var r := AddRow(d, t);
    assert e.Keys == r.Keys;
    forall k | k in e ensures e[k] == r[k] {
      assert e[k] == GroupSize(b, k) + (if CountedIn(t, k) then 1 else 0);
      if k !in Groups(b) {
        GroupSizeOutside(b, k);
      }
    }
  }

  /** A key that is no group has no counted rows. */
  lemma {:induction false} GroupSizeOutside(b: Batch, k: string)
    requires k !in Groups(b)
    ensures GroupSize(b, k) == 0
    decreases |b|
  {
    if |b| > 0 {
      var init := b[..|b| - 1];
      assert b == init + [b[|b| - 1]];
      GroupsSnoc(init, b[|b| - 1]);
      GroupSizeOutside(init, k);
    }
  }

  /** The group-by computed row by row, as pandas builds its groups. */
  method CountPayments(b: Batch) returns (d: Distribution)
    ensures d == PaymentDistribution(b)
  {
    d := map[];
    var i := 0;
    while i < |b|
      invariant 0 <= i <= |b|
      invariant d == PaymentDistribution(b[..i])
    {
      DistributionSnoc(b[..i], b[i]);
      assert b[..i + 1] == b[..i] + [b[i]];
      d := AddRow(d, b[i]);
      i := i + 1;
    }
    assert b[..i] == b;
  }

  // ---------------------------------------------------------------------
  // What the distribution says about the payment labels.

  /** Number of counted rows whose label is `p`, on the labels themselves. */
  function LabelCount(b: Batch, p: int): nat
    decreases |b|
  {
    if |b| == 0 then 0
    else LabelCount(b[..|b| - 1], p) + (if b[|b| - 1].paymentType == Some(p) && b[|b| - 1].anchor then 1 else 0)
  }

  lemma {:induction false} GroupSizeIsLabelCount(b: Batch, p: int)
    ensures GroupSize(b, Show(p)) == LabelCount(b, p)
    decreases |b|
  {
    if |b| > 0 {
      GroupSizeIsLabelCount(b[..|b| - 1], p);
      var t := b[|b| - 1];
      if t.paymentType.Some? {
        ShowInjective(t.paymentType.value, p);
      }
    }
  }

  /** The distribution has a key for label `p` exactly when some row carries
      `p`, and that key counts the rows with label `p` and a non-null first
      column; it has no other keys. */
  lemma DistributionByLabel(b: Batch, p: int)
    ensures Show(p) in PaymentDistribution(b) <==> exists i :: 0 <= i < |b| && b[i].paymentType == Some(p)
    ensures Show(p) in PaymentDistribution(b) ==> PaymentDistribution(b)[Show(p)] == LabelCount(b, p)
  {
    GroupSizeIsLabelCount(b, p);
    if Show(p) in Groups(b) {
      var i :| 0 <= i < |b| && b[i].paymentType.Some? && Show(b[i].paymentType.value) == Show(p);
      ShowInjective(b[i].paymentType.value, p);
    }
  }

  /** Every key is the string form of a label some row carries. */
  lemma DistributionKeysAreLabels(b: Batch, k: string)
    requires k in PaymentDistribution(b)
    ensures exists i :: 0 <= i < |b| && b[i].paymentType.Some? && Show(b[i].paymentType.value) == k
  {
  }

  // ---------------------------------------------------------------------
  // Sum of the counts.

  /** Sum of the counts of a distribution. */
  ghost function Total(d: Distribution): nat
    decreases |d|
  {
    if d == map[] then 0 else var k :| k in d; d[k] + Total(d - {k})
  }

  /** The sum may be taken starting from any key. */
  lemma TotalRemove(d: Distribution, k: string)
    requires k in d
    ensures Total(d) == d[k] + Total(d - {k})
    decreases |d|
  {
    var j :| j in d && Total(d) == d[j] + Total(d - {j});
    if j != k {
      assert (d - {j}).Keys == d.Keys - {j};
      assert (d - {k}).Keys == d.Keys - {k};
      TotalRemove(d - {j}, k);
      TotalRemove(d - {k}, j);
      assert d - {j} - {k} == d - {k} - {j};
    }
  }

  lemma TotalAddRow(d: Distribution, t: Trip)
    ensures Total(AddRow(d, t)) == Total(d) + (if t.paymentType.Some? && t.anchor then 1 else 0)
  {
    if t.paymentType.Some? {
      var k := Show(t.paymentType.value);
      var r := AddRow(d, t);
      TotalRemove(r, k);
      assert r - {k} == d - {k};
      if k in d {
        TotalRemove(d, k);
      } else {
        assert d - {k} == d;
      }
    }
  }

  /** Number of rows with a label and a non-null first column. */
  function CountedRows(b: Batch): nat
    decreases |b|
  {
    if |b| == 0 then 0
    else CountedRows(b[..|b| - 1]) + (if b[|b| - 1].paymentType.Some? && b[|b| - 1].anchor then 1 else 0)
  }

  /** The counts add up to the number of counted rows: every such row is in
      exactly one group. */
  lemma {:induction false} DistributionTotal(b: Batch)
    ensures Total(PaymentDistribution(b)) == CountedRows(b)
    decreases |b|
  {
    if |b| == 0 {
      assert PaymentDistribution(b) == map[];
    } else {
      var init := b[..|b| - 1];
      assert b == init + [b[|b| - 1]];
      DistributionTotal(init);
      DistributionSnoc(init, b[|b| - 1]);
      TotalAddRow(PaymentDistribution(init), b[|b| - 1]);
    }
  }

  // ---------------------------------------------------------------------
  // Merge with the previous run's distribution, as written.

  /** A freshly computed distribution as pandas holds it. */
  function Store(d: Distribution): (s: Stored)
    ensures s.Keys == d.Keys
  {
    map k | k in d :: Some(d[k])
  }

  /** `prev_distribution.add(curr_distribution)` when a previous distribution
      was read, else the current one (script.py:87-90). `Series.add` without
      a fill value aligns the two indexes: a key on one side only, or a NaN
      count, gives NaN. */
  function MergeDistribution(prev: Option<Stored>, curr: Distribution): (r: Stored)
    ensures prev.None? ==> r == Store(curr)
    ensures prev.Some? ==> r.Keys == prev.value.Keys + curr.Keys
    ensures prev.Some? ==> forall k :: k in r ==>
      (r[k].Some? <==> k in prev.value && k in curr && prev.value[k].Some?)
    ensures prev.Some? ==> forall k :: k in r && r[k].Some? ==>
      r[k].value == prev.value[k].value + curr[k]
  {
    match prev
    case None => Store(curr)
    case Some(p) =>
      map k | k in p.Keys + curr.Keys ::
        if k in p && k in curr && p[k].Some? then Some(p[k].value + curr[k]) else None
  }

  // ---------------------------------------------------------------------
  // Merge as intended.

  /** Key-wise sum of two distributions, a missing key counting as zero. */
  function AddCounts(p: Distribution, c: Distribution): (r: Distribution)
    ensures r.Keys == p.Keys + c.Keys
    ensures forall k :: k in r ==> r[k] == Get(p, k) + Get(c, k)
  {
    map k | k in p.Keys + c.Keys :: Get(p, k) + Get(c, k)
  }

  /** The corrected distribution merge: a group missing on one side counts
      as zero there. */
  function MergeDistributionIntended(prev: Option<Distribution>, curr: Distribution): (r: Distribution)
    ensures prev.None? ==> r == curr
    ensures prev.Some? ==> r == AddCounts(prev.value, curr)
  {
    match prev
    case None => curr
    case Some(p) => AddCounts(p, curr)
  }

  lemma AddCountsCommutes(p: Distribution, c: Distribution)
    ensures AddCounts(p, c) == AddCounts(c, p)
  {
  }

  lemma AddCountsEmpty(d: Distribution)
    ensures AddCounts(d, map[]) == d
  {
  }

  /** The corrected sum loses and invents no rows: its counts add up to the
      counts of both sides together. */
  lemma {:induction false} AddCountsTotal(p: Distribution, c: Distribution)
    ensures Total(AddCounts(p, c)) == Total(p) + Total(c)
    decreases |p|
  {
    if p == map[] {
      assert AddCounts(p, c) == c;
    } else {
      var k :| k in p;
      AddCountsRemove(p, c, k);
      MapRemoveSize(p, k);
      AddCountsTotal(p - {k}, c - {k});
      TotalRemove(p, k);
      TotalRemove(AddCounts(p, c), k);
      TotalMinus(c, k);
    }
  }

  /** Taking a key out of both sides takes it out of the sum. */
  lemma AddCountsRemove(p: Distribution, c: Distribution, k: string)
    requires k in p
    ensures AddCounts(p, c) - {k} == AddCounts(p - {k}, c - {k})
  {
    var l, r := AddCounts(p, c) - {k}, AddCounts(p - {k}, c - {k});
    forall j ensures j in l <==> j in r {
    }
    forall j | j in l ensures l[j] == r[j] {
      var pk, ck := p - {k}, c - {k};
      assert j in p <==> j in pk;
      assert j in c <==> j in ck;
    }
    assert l == r;
  }

  lemma MapRemoveSize(p: Distribution, k: string)
    requires k in p
    ensures |p - {k}| == |p| - 1
  {
    assert (p - {k}).Keys == p.Keys - {k};
    assert |p.Keys| == |p|;
    assert |(p - {k}).Keys| == |p - {k}|;
  }

  lemma TotalMinus(c: Distribution, k: string)
    ensures Total(c) == Get(c, k) + Total(c - {k})
  {
    if k in c {
      TotalRemove(c, k);
    } else {
      assert c - {k} == c;
    }
  }

  lemma {:induction false} GroupSizeAppend(a: Batch, b: Batch, k: string)
    ensures GroupSize(a + b, k) == GroupSize(a, k) + GroupSize(b, k)
    decreases |b|
  {
    if |b| == 0 {
      assert a + b == a;
    } else {
      assert (a + b)[..|a + b| - 1] == a + b[..|b| - 1];
      GroupSizeAppend(a, b[..|b| - 1], k);
    }
  }

  lemma GroupsAppend(a: Batch, b: Batch)
    ensures Groups(a + b) == Groups(a) + Groups(b)
  {
    var ab := a + b;
    forall k | k in Groups(ab) ensures k in Groups(a) + Groups(b) {
      var i :| 0 <= i < |ab| && ab[i].paymentType.Some? && Show(ab[i].paymentType.value) == k;
      if i < |a| {
        assert a[i] == ab[i];
      } else {
        assert b[i - |a|] == ab[i];
      }
    }
    forall k | k in Groups(a) ensures k in Groups(ab) {
      var i :| 0 <= i < |a| && a[i].paymentType.Some? && Show(a[i].paymentType.value) == k;
      assert ab[i] == a[i];
    }
    forall k | k in Groups(b) ensures k in Groups(ab) {
      var i :| 0 <= i < |b| && b[i].paymentType.Some? && Show(b[i].paymentType.value) == k;
      assert ab[|a| + i] == b[i];
    }
  }

  /** Merging the distributions of two batches is the distribution of the
      batches together: the stored state never needs the raw history. */
  lemma DistributionAppend(a: Batch, b: Batch)
    ensures MergeDistributionIntended(Some(PaymentDistribution(a)), PaymentDistribution(b))
      == PaymentDistribution(a + b)
  {
    GroupsAppend(a, b);
    var e, r := PaymentDistribution(a + b), AddCounts(PaymentDistribution(a), PaymentDistribution(b));
    assert e.Keys == r.Keys;
    forall k | k in e ensures e[k] == r[k] {
      GroupSizeSplit(a, b, k);
    }
    assert e == r;
  }

  lemma GroupSizeSplit(a: Batch, b: Batch, k: string)
    ensures GroupSize(a + b, k) == Get(PaymentDistribution(a), k) + Get(PaymentDistribution(b), k)
  {
    GroupSizeAppend(a, b, k);
    if k !in Groups(a) {
      GroupSizeOutside(a, k);
    }
    if k !in Groups(b) {
      GroupSizeOutside(b, k);
    }
  }


  /** Against the corrected key-wise sum, `Series.add` as written has the
      same keys, and it gives the sum on a key exactly when both sides count
      that key; every other key is NaN. */
  lemma MergeDistributionSumsOnlyShared(p: Distribution, c: Distribution)
    ensures MergeDistribution(Some(Store(p)), c).Keys == AddCounts(p, c).Keys
    ensures forall k :: k in AddCounts(p, c) ==>
      (MergeDistribution(Some(Store(p)), c)[k] == Some(AddCounts(p, c)[k]) <==> k in p && k in c)
    ensures forall k :: k in AddCounts(p, c) && !(k in p && k in c) ==>
      MergeDistribution(Some(Store(p)), c)[k] == None
  {
  }

  /** `Series.add` as written is symmetric in its two distributions: a
      shared key sums in either order and a one-sided key is NaN in either
      order. */
  lemma MergeDistributionCommutes(p: Distribution, c: Distribution)
    ensures MergeDistribution(Some(Store(p)), c) == MergeDistribution(Some(Store(c)), p)
  {
  }

  /** `{"1": 5}` then `{"1": 2, "2": 3}`: as written, the key seen only in
      the current run becomes NaN rather than 3. */
  lemma MergeDistributionExample()
    ensures MergeDistribution(Some(map["1" := Some(5)]), map["1" := 2, "2" := 3])
      == map["1" := Some(7), "2" := None]
    ensures MergeDistributionIntended(Some(map["1" := 5]), map["1" := 2, "2" := 3])
      == map["1" := 7, "2" := 3]
  {
    var r := MergeDistribution(Some(map["1" := Some(5)]), map["1" := 2, "2" := 3]);
    assert r.Keys == {"1", "2"};
    var s := MergeDistributionIntended(Some(map["1" := 5]), map["1" := 2, "2" := 3]);
    assert s.Keys == {"1", "2"};
  }
}
