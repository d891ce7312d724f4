/** Trip records and the element-wise column arithmetic shared by the
    price-per-mile and custom-indicator statistics (script.py). */
module Trips {
  import opened Wrappers

  /** One row of a yellow-taxi snapshot. A `None` field is a null cell.
      `anchor` says whether the batch's first column is non-null in this row:
      the payment distribution counts that column per group. */
  datatype Trip = Trip(
    totalAmount: Option<real>,
    tripDistance: Option<real>,
    tipAmount: Option<real>,
    extra: Option<real>,
    paymentType: Option<int>,
    anchor: bool)

  /** One snapshot, rows in file order. A row's index is its position, as
      with the default `RangeIndex` of a parquet file that stores no index. */
  type Batch = seq<Trip>

  /** One cell of a pandas series after `dropna`: the original row index and the value. */
  datatype Entry = Entry(pos: nat, value: real)

  type Series = seq<Entry>

  /** Element-wise addition of two float columns: a null on either side gives NaN. */
  function Plus(a: Option<real>, b: Option<real>): (r: Option<real>)
    ensures r.Some? <==> a.Some? && b.Some?
  {
    if a.Some? && b.Some? then Some(a.value + b.value) else None
  }

  /** Element-wise division of two float columns, with non-finite results
      (NaN from a null or from 0/0, and +-inf from x/0) collapsed to `None`:
      the `replace([inf, -inf], nan)` step. */
  function Quotient(num: Option<real>, den: Option<real>): (q: Option<real>)
    ensures q.Some? <==> num.Some? && den.Some? && den.value != 0.0
    ensures q.Some? ==> q.value * den.value == num.value
  {
    if num.Some? && den.Some? && den.value != 0.0 then Some(num.value / den.value) else None
  }

  /** The `dropna` step over a column whose first cell has row index `offset`:
      keeps the defined cells, in order, each tagged with its row index. The
      number of kept cells is the number of defined cells. */
  function DropNonFinite(col: seq<Option<real>>, offset: nat): (s: Series)
    ensures |s| == Defined(col)
    decreases |col|
  {
    if |col| == 0 then []
    else (if col[0].Some? then [Entry(offset, col[0].value)] else []) + DropNonFinite(col[1..], offset + 1)
  }

  /** Number of defined cells of a column. */
  function Defined(col: seq<Option<real>>): (n: nat)
    ensures n <= |col|
    decreases |col|
  {
    if |col| == 0 then 0 else (if col[0].Some? then 1 else 0) + Defined(col[1..])
  }

  /** Sum of the values of a series (pandas `sum`, without rounding). */
  function Sum(s: Series): real
    decreases |s|
  {
    if |s| == 0 then 0.0 else s[0].value + Sum(s[1..])
  }

  /** Unfolds one step of `DropNonFinite`. */
  lemma DropNonFiniteCons(col: seq<Option<real>>, offset: nat)
    requires |col| > 0
    ensures col[0].Some? ==> DropNonFinite(col, offset) == [Entry(offset, col[0].value)] + DropNonFinite(col[1..], offset + 1)
    ensures col[0].None? ==> DropNonFinite(col, offset) == DropNonFinite(col[1..], offset + 1)
  {
  }

  /** Entry `e` records the defined cell of `col` at row index `e.pos`, the
      column's first cell having index `offset`. */
  predicate CellOf(col: seq<Option<real>>, offset: nat, e: Entry) {
    offset <= e.pos < offset + |col| && col[e.pos - offset] == Some(e.value)
  }

  /** Every kept cell comes from a defined cell, at the recorded row index. */
  lemma {:induction false} DropNonFiniteSound(col: seq<Option<real>>, offset: nat)
    ensures forall e :: e in DropNonFinite(col, offset) ==> CellOf(col, offset, e)
    decreases |col|
  {
    if |col| > 0 {
      var rest := DropNonFinite(col[1..], offset + 1);
      DropNonFiniteSound(col[1..], offset + 1);
      DropNonFiniteCons(col, offset);
      forall e | e in rest ensures CellOf(col, offset, e) {
        assert CellOf(col[1..], offset + 1, e);
        assert col[1..][e.pos - (offset + 1)] == col[e.pos - offset];
      }
    }
  }

  /** The kept row indices strictly increase: original order, no duplicates. */
  lemma {:induction false} DropNonFiniteOrdered(col: seq<Option<real>>, offset: nat)
    ensures var s := DropNonFinite(col, offset);
      forall k, l :: 0 <= k < l < |s| ==> s[k].pos < s[l].pos
    decreases |col|
  {
    if |col| > 0 {
      var s := DropNonFinite(col, offset);
      var rest := DropNonFinite(col[1..], offset + 1);
      DropNonFiniteOrdered(col[1..], offset + 1);
      DropNonFiniteSound(col[1..], offset + 1);
      DropNonFiniteCons(col, offset);
      if col[0].Some? {
        forall k, l | 0 <= k < l < |s| ensures s[k].pos < s[l].pos {
          assert s[l] == rest[l - 1];
          assert rest[l - 1] in rest && CellOf(col[1..], offset + 1, rest[l - 1]);
          if k > 0 {
            assert s[k] == rest[k - 1];
          }
        }
      }
    }
  }

  /** Every defined cell is kept. */
  lemma {:induction false} DropNonFiniteComplete(col: seq<Option<real>>, offset: nat)
    ensures var s := DropNonFinite(col, offset);
      forall i :: 0 <= i < |col| && col[i].Some? ==> exists k :: 0 <= k < |s| && s[k].pos == offset + i
    decreases |col|
  {
    if |col| > 0 {
      var s := DropNonFinite(col, offset);
      var rest := DropNonFinite(col[1..], offset + 1);
      DropNonFiniteComplete(col[1..], offset + 1);
      DropNonFiniteCons(col, offset);
      var h := if col[0].Some? then 1 else 0;
      forall i | 0 <= i < |col| && col[i].Some?
        ensures exists k :: 0 <= k < |s| && s[k].pos == offset + i
      {
        if i == 0 {
          assert s[0].pos == offset;
        } else {
          assert col[1..][i - 1].Some?;
          var k :| 0 <= k < |rest| && rest[k].pos == offset + 1 + (i - 1);
          assert s[h + k] == rest[k];
        }
      }
    }
  }

  /** Filtering a concatenated column is filtering each part, the second part
      indexed after the first. */
  lemma {:induction false} DropNonFiniteAppend(a: seq<Option<real>>, b: seq<Option<real>>, offset: nat)
    ensures DropNonFinite(a + b, offset) == DropNonFinite(a, offset) + DropNonFinite(b, offset + |a|)
    decreases |a|
  {
    if |a| > 0 {
      assert (a + b)[1..] == a[1..] + b;
      DropNonFiniteAppend(a[1..], b, offset + 1);
    } else {
      assert a + b == b;
    }
  }

  /** The values kept do not depend on where the indices start. */
  lemma {:induction false} DropNonFiniteOffset(col: seq<Option<real>>, o1: nat, o2: nat)
    ensures |DropNonFinite(col, o1)| == |DropNonFinite(col, o2)|
    ensures Sum(DropNonFinite(col, o1)) == Sum(DropNonFinite(col, o2))
    decreases |col|
  {
    if |col| > 0 {
      DropNonFiniteOffset(col[1..], o1 + 1, o2 + 1);
      DropNonFiniteCons(col, o1);
      DropNonFiniteCons(col, o2);
      if col[0].Some? {
        SumAppend([Entry(o1, col[0].value)], DropNonFinite(col[1..], o1 + 1));
        SumAppend([Entry(o2, col[0].value)], DropNonFinite(col[1..], o2 + 1));
      }
    }
  }

  lemma {:induction false} SumAppend(a: Series, b: Series)
    ensures Sum(a + b) == Sum(a) + Sum(b)
    decreases |a|
  {
    if |a| > 0 {
      assert (a + b)[1..] == a[1..] + b;
      SumAppend(a[1..], b);
    } else {
      assert a + b == b;
    }
  }
}
