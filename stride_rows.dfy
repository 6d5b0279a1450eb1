/**
 * The fixed-stride row extraction both operator parsers use: the page's item texts form
 * one flat list, and item `k` is read from the texts starting at index `k × stride`, for
 * every start below a layout-specific stop (`range(0, stop, stride)`). Reading a row
 * fails where an index is out of range or a text is not a number, and then the whole
 * list fails, as `list(generator)` does on the first exception.
 */
module StrideRows {
  import opened Base

  /** Reads one row from `strings` starting at the given index, or fails. */
  type RowReader<T> = (seq<string>, nat) -> Option<T>

  /** The rows starting at `i`, `i + stride`, … below `stop`. */
  function RowsFrom<T>(strings: seq<string>, i: nat, stop: int, stride: nat, row: RowReader<T>): Option<seq<T>>
    requires stride > 0
    decreases if i < stop then stop - i else 0
  {
    if i >= stop then Some([])
    else
      match row(strings, i)
      case None => None
      case Some(x) =>
        match RowsFrom(strings, i + stride, stop, stride, row)
        case None => None
        case Some(rest) => Some([x] + rest)
  }

  /** The number of starts `range(0, stop, stride)` yields. */
  function RowCount(stop: int, stride: nat): (n: nat)
    requires stride > 0
    ensures stop <= 0 ==> n == 0
    ensures stop > 0 ==> (n - 1) * stride < stop <= n * stride
    decreases if stop > 0 then stop else 0
  {
    if stop <= 0 then 0
    else
      var n := RowCount(stop - stride, stride);
      assert n * stride + stride == (n + 1) * stride;
      n + 1
  }

  /** `rows` in front of the rows still to come, failure staying failure. */
  function Prepend<T>(rows: seq<T>, rest: Option<seq<T>>): Option<seq<T>>
  {
    match rest
    case None => None
    case Some(r) => Some(rows + r)
  }

  /** The extraction loop: one row per start, failing as soon as a row does. */
  method CollectRows<T>(strings: seq<string>, stop: int, stride: nat, row: RowReader<T>) returns (r: Option<seq<T>>)
    requires stride > 0
    ensures r == RowsFrom(strings, 0, stop, stride, row)
  {
    var i: nat := 0;
    var rows: seq<T> := [];
    var all := RowsFrom(strings, 0, stop, stride, row);
    if all.Some? {
      assert [] + all.value == all.value;
    }
    while i < stop
      invariant RowsFrom(strings, 0, stop, stride, row) == Prepend(rows, RowsFrom(strings, i, stop, stride, row))
      decreases stop - i
    {
      var x := row(strings, i);
      if x.None? {
        return None;
      }
      var later := RowsFrom(strings, i + stride, stop, stride, row);
      if later.Some? {
        assert rows + ([x.value] + later.value) == (rows + [x.value]) + later.value;
      }
      rows := rows + [x.value];
      i := i + stride;
    }
    assert rows + [] == rows;
    r := Some(rows);
  }

  /** Start number `k` of `range(i, …, stride)`. */
  function Start(i: nat, k: nat, stride: nat): nat
  {
    if k == 0 then i else Start(i, k - 1, stride) + stride
  }

  lemma {:induction false} StartValue(i: nat, k: nat, stride: nat)
    ensures Start(i, k, stride) == i + k * stride
  {
    if k > 0 {
      StartValue(i, k - 1, stride);
      assert k * stride == (k - 1) * stride + stride;
    }
  }

  lemma {:induction false} StartShift(i: nat, k: nat, stride: nat)
    ensures Start(i, k + 1, stride) == Start(i + stride, k, stride)
  {
    if k > 0 {
      StartShift(i, k - 1, stride);
    }
  }

  /** Every one of the first `n` starts of `range(i, …, stride)` reads a row. */
  predicate ReadsAll<T>(strings: seq<string>, i: nat, n: nat, stride: nat, row: RowReader<T>)
  {
    forall k :: 0 <= k < n ==> row(strings, Start(i, k, stride)).Some?
  }

  /** A successful extraction has one row per start, each the read at that start. */
  lemma {:induction false} RowsRead<T>(strings: seq<string>, i: nat, stop: int, stride: nat, row: RowReader<T>)
    requires stride > 0
    ensures var n := RowCount(stop - i, stride);
      var r := RowsFrom(strings, i, stop, stride, row);
      r.Some? ==>
        && |r.value| == n && ReadsAll(strings, i, n, stride, row)
        && forall k :: 0 <= k < n ==> r.value[k] == row(strings, Start(i, k, stride)).value
    decreases if i < stop then stop - i else 0
  {
    var r := RowsFrom(strings, i, stop, stride, row);
    if i < stop && r.Some? {
      var n := RowCount(stop - i, stride);
      var i' := i + stride;
      var r' := RowsFrom(strings, i', stop, stride, row);
      assert n == RowCount(stop - i', stride) + 1;
      RowsRead(strings, i', stop, stride, row);
      assert r.value == [row(strings, i).value] + r'.value;
      forall k | 0 <= k < n
        ensures row(strings, Start(i, k, stride)).Some?
        ensures r.value[k] == row(strings, Start(i, k, stride)).value
      {
        if k > 0 {
          StartShift(i, k - 1, stride);
          assert r.value[k] == r'.value[k - 1];
        }
      }
    }
  }

  /** The extraction succeeds once every read at a start does. */
  lemma {:induction false} RowsComplete<T>(strings: seq<string>, i: nat, stop: int, stride: nat, row: RowReader<T>)
    requires stride > 0 && ReadsAll(strings, i, RowCount(stop - i, stride), stride, row)
    ensures RowsFrom(strings, i, stop, stride, row).Some?
    decreases if i < stop then stop - i else 0
  {
    if i < stop {
      var i' := i + stride;
      var n' := RowCount(stop - i', stride);
      assert RowCount(stop - i, stride) == n' + 1;
      assert row(strings, Start(i, 0, stride)).Some?;
      forall j | 0 <= j < n' ensures row(strings, Start(i', j, stride)).Some? {
        StartShift(i, j, stride);
        assert row(strings, Start(i, j + 1, stride)).Some?;
      }
      RowsComplete(strings, i', stop, stride, row);
    }
  }

  /**
   * The rows of the whole extraction are exactly one per start of `range(0, stop, stride)`:
   * there are `RowCount` of them, row `k` is what `row` reads at start `k`, and the
   * extraction fails exactly when one of those reads does.
   */
  lemma Rows<T>(strings: seq<string>, stop: int, stride: nat, row: RowReader<T>)
    requires stride > 0
    ensures RowsFrom(strings, 0, stop, stride, row).Some? <==> ReadsAll(strings, 0, RowCount(stop, stride), stride, row)
    ensures RowsFrom(strings, 0, stop, stride, row).Some? ==>
      && |RowsFrom(strings, 0, stop, stride, row).value| == RowCount(stop, stride)
      && forall k :: 0 <= k < RowCount(stop, stride) ==>
           RowsFrom(strings, 0, stop, stride, row).value[k] == row(strings, Start(0, k, stride)).value
  {
    assert stop - 0 == stop;
    RowsRead(strings, 0, stop, stride, row);
    if ReadsAll(strings, 0, RowCount(stop, stride), stride, row) {
      RowsComplete(strings, 0, stop, stride, row);
    }
  }

  lemma MulMono(a: nat, b: nat, c: nat)
    requires a <= b
    ensures a * c <= b * c
  {
  }

  /** `(k × m) / m` is `k` and the remainder is 0. */
  lemma {:induction false} MulDiv(k: nat, m: nat)
    requires m > 0
    ensures (k * m) % m == 0 && (k * m) / m == k
  {
    var x := k * m;
    var q, r := x / m, x % m;
    assert x == m * q + r && 0 <= r < m;
    if q > k {
      MulMono(k + 1, q, m);
      assert false;
    } else if q < k {
      MulMono(q + 1, k, m);
      assert false;
    }
  }

  /**
   * The same, indexed by the start itself: the starts are the multiples `i` of `stride`
   * below `stop`, and the row read at `i` is row number `i / stride`.
   */
  lemma RowsAtStarts<T>(strings: seq<string>, stop: int, stride: nat, row: RowReader<T>)
    requires stride > 0
    ensures var r := RowsFrom(strings, 0, stop, stride, row);
      && (r.Some? <==> forall i :: 0 <= i < stop && i % stride == 0 ==> row(strings, i).Some?)
      && (r.Some? ==> |r.value| == RowCount(stop, stride) && forall i :: 0 <= i < stop && i % stride == 0 ==>
            i / stride < |r.value| && r.value[i / stride] == row(strings, i).value)
  {
    var r, n := RowsFrom(strings, 0, stop, stride, row), RowCount(stop, stride);
    Rows(strings, stop, stride, row);
    if r.Some? {
      forall i | 0 <= i < stop && i % stride == 0
        ensures i / stride < n && row(strings, i).Some? && r.value[i / stride] == row(strings, i).value
      {
        var k := i / stride;
        assert i == stride * k;
        if k >= n {
          MulMono(n, k, stride);
          assert false;
        }
        StartValue(0, k, stride);
      }
    } else {
      var k :| 0 <= k < n && row(strings, Start(0, k, stride)).None?;
      StartValue(0, k, stride);
      MulMono(k, n - 1, stride);
      MulDiv(k, stride);
    }
  }
}
