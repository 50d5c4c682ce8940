/** The two array kernels flattening needs: gathering rows, and merging a parent's null buffer. */
module Kernels {
  import opened Wrappers
  import opened Arrow

  function TakeValidity(v: Validity, indices: seq<nat>): Validity {
    if v.None? then None else Some(seq(|indices|, r requires 0 <= r < |indices| => IsValid(v, indices[r])))
  }

  function Range(from: nat, n: nat): seq<nat>
  {
    seq(n, k requires 0 <= k < n => from + k)
  }

  function ListRange(offsets: seq<nat>, i: nat): seq<nat> {
    if i + 1 < |offsets| && offsets[i] <= offsets[i + 1] then Range(offsets[i], offsets[i + 1] - offsets[i]) else []
  }

  function ListRanges(offsets: seq<nat>, indices: seq<nat>): seq<seq<nat>>
  {
    seq(|indices|, r requires 0 <= r < |indices| => ListRange(offsets, indices[r]))
  }

  function FixedRanges(size: nat, indices: seq<nat>): (r: seq<seq<nat>>)
    ensures |r| == |indices|
    ensures forall x | x in r :: |x| == size
  {
    seq(|indices|, r requires 0 <= r < |indices| => Range(indices[r] * size, size))
  }

  /** `compute::take`: the rows at the given indices. */
  function Take(a: ArrowArray, indices: seq<nat>): (r: ArrowArray)
    ensures TypeOf(r) == TypeOf(a)
    decreases a, 0
  {
    match a
    case Leaf(ty, cells) =>
      Leaf(ty,
           seq(|indices|, r requires 0 <= r < |indices| => if indices[r] < |cells| then cells[indices[r]] else None))
    case ListArray(offsets, values, validity) =>
      var rows := ListRanges(offsets, indices);
      ListArray(FromLengths(LengthsOf(rows)), Take(values, Concat(rows)), TakeValidity(validity, indices))
    case FixedListArray(size, _, values, validity) =>
      FixedListArray(size, |indices|, Take(values, Concat(FixedRanges(size, indices))), TakeValidity(validity, indices))
    case StructArray(_, columns, validity) =>
      StructArray(|indices|, TakeColumns(columns, indices), TakeValidity(validity, indices))
  }

  function TakeColumns(columns: seq<ArrowColumn>, indices: seq<nat>): (r: seq<ArrowColumn>)
    ensures |r| == |columns| && Fields(r) == Fields(columns)
    decreases columns, 0
  {
    seq(|columns|, k requires 0 <= k < |columns| => ArrowColumn(columns[k].name, Take(columns[k].data, indices)))
  }

  predicate InBounds(indices: seq<nat>, n: nat) {
    forall i | i in indices :: i < n
  }

  /** What a reader of the gathered array sees. */
  predicate Gathers(t: ArrowArray, a: ArrowArray, indices: seq<nat>) {
    && WellFormed(t) && Len(t) == |indices|
    && forall r | 0 <= r < |indices| :: At(t, r) == At(a, indices[r])
  }

  lemma {:induction false} ConcatInBounds(rows: seq<seq<nat>>, n: nat)
    requires forall r | r in rows :: InBounds(r, n)
    ensures InBounds(Concat(rows), n)
  {
    if rows != [] {
      var last := |rows| - 1;
      assert forall r | r in rows[..last] :: r in rows;
      ConcatInBounds(rows[..last], n);
      assert rows[last] in rows;
    }
  }

  lemma {:induction false} SliceOfTaken(inner: ArrowArray, values: ArrowArray, indices: seq<nat>, from: nat,
                                        first: nat, n: nat)
    requires Gathers(inner, values, indices) && from + n <= |indices| && indices[from..from + n] == Range(first, n)
    ensures Slice(inner, from, n) == Slice(values, first, n)
  {
    forall k | 0 <= k < n ensures Slice(inner, from, n)[k] == Slice(values, first, n)[k] {
      assert indices[from + k] == indices[from..from + n][k];
    }
  }

  lemma {:induction false} TakeListReads(offsets: seq<nat>, values: ArrowArray, validity: Validity, indices: seq<nat>,
                                         inner: ArrowArray, r: nat)
    requires WellFormed(ListArray(offsets, values, validity)) && InBounds(indices, |offsets| - 1) && r < |indices|
    requires Gathers(inner, values, Concat(ListRanges(offsets, indices)))
    ensures At(ListArray(FromLengths(LengthsOf(ListRanges(offsets, indices))), inner, TakeValidity(validity, indices)),
               r)
         == At(ListArray(offsets, values, validity), indices[r])
  {
    var rows := ListRanges(offsets, indices);
    var i := indices[r];
    assert i in indices;
    var next := i + 1;
    assert offsets[i] <= offsets[next];
    ItemsBetweenOffsets(rows, r);
    var starts := FromLengths(LengthsOf(rows));
    SliceOfTaken(inner, values, Concat(rows), starts[r], offsets[i], offsets[next] - offsets[i]);
  }

  lemma {:induction false} TakeListGathers(offsets: seq<nat>, values: ArrowArray, validity: Validity, indices: seq<nat>,
                                           inner: ArrowArray)
    requires WellFormed(ListArray(offsets, values, validity)) && InBounds(indices, |offsets| - 1)
    requires Gathers(inner, values, Concat(ListRanges(offsets, indices)))
    ensures Gathers(ListArray(FromLengths(LengthsOf(ListRanges(offsets, indices))), inner,
                              TakeValidity(validity, indices)),
                    ListArray(offsets, values, validity), indices)
  {
    OffsetsAscend(ListRanges(offsets, indices));
    forall r | 0 <= r < |indices|
      ensures At(ListArray(FromLengths(LengthsOf(ListRanges(offsets, indices))), inner,
                           TakeValidity(validity, indices)), r)
           == At(ListArray(offsets, values, validity), indices[r])
    {
      TakeListReads(offsets, values, validity, indices, inner, r);
    }
  }

  lemma {:induction false} ListRangesInBounds(offsets: seq<nat>, indices: seq<nat>, n: nat)
    requires Ascending(offsets) && offsets[|offsets| - 1] <= n
    ensures InBounds(Concat(ListRanges(offsets, indices)), n)
  {
    forall row | row in ListRanges(offsets, indices) ensures InBounds(row, n) {
      var r :| 0 <= r < |indices| && row == ListRange(offsets, indices[r]);
      var i := indices[r] + 1;
      if i < |offsets| {
        assert offsets[i] <= offsets[|offsets| - 1];
      }
    }
    ConcatInBounds(ListRanges(offsets, indices), n);
  }

  lemma {:induction false} RowEnds(i: nat, len: nat, size: nat)
    requires i < len
    ensures i * size + size <= len * size
  {
    assert (i + 1) * size <= len * size;
    OneMoreTimes(i, size);
  }

  lemma {:induction false} FixedRangesInBounds(size: nat, indices: seq<nat>, len: nat)
    requires InBounds(indices, len)
    ensures InBounds(Concat(FixedRanges(size, indices)), len * size)
  {
    forall row | row in FixedRanges(size, indices) ensures InBounds(row, len * size) {
      var r :| 0 <= r < |indices| && row == Range(indices[r] * size, size);
      assert indices[r] in indices;
      RowEnds(indices[r], len, size);
    }
    ConcatInBounds(FixedRanges(size, indices), len * size);
  }

  lemma {:induction false} TakeFixedReads(size: nat, len: nat, values: ArrowArray, validity: Validity,
                                          indices: seq<nat>,
                                          inner: ArrowArray, r: nat)
    requires r < |indices| && Gathers(inner, values, Concat(FixedRanges(size, indices)))
    ensures At(FixedListArray(size, |indices|, inner, TakeValidity(validity, indices)), r)
         == At(FixedListArray(size, len, values, validity), indices[r])
  {
    var rows := FixedRanges(size, indices);
    ItemsOfEqual(rows, size, r);
    var from, first := r * size, indices[r] * size;
    assert rows[r] == Range(first, size);
    SliceOfTaken(inner, values, Concat(rows), from, first, size);
  }

  lemma {:induction false} TakeFixedGathers(size: nat, len: nat, values: ArrowArray, validity: Validity,
                                            indices: seq<nat>,
                                            inner: ArrowArray)
    requires WellFormed(FixedListArray(size, len, values, validity)) && InBounds(indices, len)
    requires Gathers(inner, values, Concat(FixedRanges(size, indices)))
    ensures Gathers(FixedListArray(size, |indices|, inner, TakeValidity(validity, indices)),
                    FixedListArray(size, len, values, validity), indices)
  {
    var rows := FixedRanges(size, indices);
    ConcatOfEqual(rows, size);
    forall r | 0 <= r < |indices|
      ensures At(FixedListArray(size, |indices|, inner, TakeValidity(validity, indices)), r)
           == At(FixedListArray(size, len, values, validity), indices[r])
    {
      TakeFixedReads(size, len, values, validity, indices, inner, r);
    }
  }

  lemma {:induction false} TakeGathers(a: ArrowArray, indices: seq<nat>)
    requires WellFormed(a) && InBounds(indices, Len(a))
    ensures Gathers(Take(a, indices), a, indices)
    decreases a, 0
  {
    match a
    case Leaf(_, cells) =>
      forall r | 0 <= r < |indices| ensures At(Take(a, indices), r) == At(a, indices[r]) {
        assert indices[r] in indices;
      }
    case ListArray(offsets, values, validity) =>
      ListRangesInBounds(offsets, indices, Len(values));
      TakeGathers(values, Concat(ListRanges(offsets, indices)));
      TakeListGathers(offsets, values, validity, indices, Take(values, Concat(ListRanges(offsets, indices))));
    case FixedListArray(size, len, values, validity) =>
      FixedRangesInBounds(size, indices, len);
      TakeGathers(values, Concat(FixedRanges(size, indices)));
      TakeFixedGathers(size, len, values, validity, indices, Take(values, Concat(FixedRanges(size, indices))));
    case StructArray(rows, columns, validity) =>
      TakeColumnsGather(columns, rows, indices);
      forall r | 0 <= r < |indices| ensures At(Take(a, indices), r) == At(a, indices[r]) {
        assert CellsAt(TakeColumns(columns, indices), r) == CellsAt(columns, indices[r]);
      }
  }

  lemma {:induction false} TakeColumnsGather(columns: seq<ArrowColumn>, rows: nat, indices: seq<nat>)
    requires Aligned(columns, rows) && InBounds(indices, rows)
    ensures forall k | 0 <= k < |columns| :: Gathers(TakeColumns(columns, indices)[k].data, columns[k].data, indices)
    decreases columns, 0
  {
    forall k | 0 <= k < |columns| ensures Gathers(TakeColumns(columns, indices)[k].data, columns[k].data, indices) {
      assert columns[k] in columns;
      TakeGathers(columns[k].data, indices);
    }
  }

  // ---------------------------------------------------------------- null buffers

  /** `NullBuffer::union` */
  function Merge(p: Validity, q: Validity): Validity {
    if p.None? then q
    else if q.None? then p
    else Some(seq(|p.value|, i requires 0 <= i < |p.value| => p.value[i] && IsValid(q, i)))
  }

  /** `propagate_nulls`: rows null in the parent become null in the child; nothing else changes. */
  function Propagate(parent: Validity, a: ArrowArray): (r: ArrowArray)
    ensures TypeOf(r) == TypeOf(a) && Len(r) == Len(a)
  {
    if parent.None? then a
    else
      match a
      case Leaf(ty, cells) =>
        Leaf(ty, seq(|cells|, i requires 0 <= i < |cells| => if IsValid(parent, i) then cells[i] else None))
      case ListArray(offsets, values, validity) => ListArray(offsets, values, Merge(parent, validity))
      case FixedListArray(size, len, values, validity) => FixedListArray(size, len, values, Merge(parent, validity))
      case StructArray(rows, columns, validity) => StructArray(rows, columns, Merge(parent, validity))
  }

  lemma {:induction false} PropagateReads(parent: Validity, a: ArrowArray, i: nat)
    requires WellFormed(a) && ValidityFits(parent, Len(a)) && i < Len(a)
    ensures WellFormed(Propagate(parent, a))
    ensures At(Propagate(parent, a), i) == if IsValid(parent, i) then At(a, i) else Null
  {
  }
}
