/** Pushing instruction discriminators down to the SQD provider, whose filters know fixed widths only. */
module SqdPushdown {
  import opened Wrappers
  import T = Tables
  import Q = QuerySpec
  import R = Requests
  import C = Compile

  type Blob = R.Blob

  /** The discriminator lists of a remote instruction request. */
  datatype Remote = Remote(d1: seq<Blob>, d2: seq<Blob>, d3: seq<Blob>, d4: seq<Blob>, d8: seq<Blob>)

  /** The width a discriminator is cut to. */
  function PushedWidth(len: nat): nat {
    if len <= 4 then len else if len <= 7 then 4 else 8
  }

  function Cut(ds: seq<Blob>): seq<Blob>
    requires forall d | d in ds :: 0 < |d|
  {
    seq(|ds|, i requires 0 <= i < |ds| => CutOne(ds[i]))
  }

  function CutOne(d: Blob): (r: Blob)
    ensures |r| == PushedWidth(|d|) && r <= d
  {
    d[..PushedWidth(|d|)]
  }

  predicate OneLength(ds: seq<Blob>) {
    forall d | d in ds :: |d| == |ds[0]| && |d| > 0
  }

  /** What the discriminators add to the list of width w. */
  function Added(ds: seq<Blob>, w: nat): seq<Blob>
    requires OneLength(ds)
  {
    if ds != [] && PushedWidth(|ds[0]|) == w then Cut(ds) else []
  }

  /** The remote request of the discriminators and a request's own lists. */
  function Pushed(r: R.SvmInstructionRequest): Remote
    requires OneLength(r.discriminator)
  {
    var ds := r.discriminator;
    Remote(r.d1 + Added(ds, 1), r.d2 + Added(ds, 2), r.d3 + Added(ds, 3), r.d4 + Added(ds, 4), r.d8 + Added(ds, 8))
  }

  /** The widest width the provider knows that is not longer than the discriminator. */
  predicate IsWidest(w: nat, len: nat) {
    Known(w) && w <= len && forall v | 0 <= v <= len && Known(v) :: v <= w
  }

  predicate Known(w: nat) {
    w in {1, 2, 3, 4, 8}
  }

  /** The list is the old one with the first w bytes of every discriminator behind it. */
  predicate CutInto(own: seq<Blob>, ds: seq<Blob>, w: nat, list: seq<Blob>) {
    && |list| == |own| + |ds| && list[..|own|] == own
    && forall i | 0 <= i < |ds| :: w <= |ds[i]| && list[|own|..][i] == ds[i][..w]
  }

  /** The list of width w takes the discriminators, and the others stay. */
  predicate PushedTo(r: R.SvmInstructionRequest, out: Remote, w: nat) {
    var ds := r.discriminator;
    && (if w == 1 then CutInto(r.d1, ds, 1, out.d1) else out.d1 == r.d1)
    && (if w == 2 then CutInto(r.d2, ds, 2, out.d2) else out.d2 == r.d2)
    && (if w == 3 then CutInto(r.d3, ds, 3, out.d3) else out.d3 == r.d3)
    && (if w == 4 then CutInto(r.d4, ds, 4, out.d4) else out.d4 == r.d4)
    && (if w == 8 then CutInto(r.d8, ds, 8, out.d8) else out.d8 == r.d8)
  }

  lemma {:induction false} CutsStand(own: seq<Blob>, ds: seq<Blob>)
    requires OneLength(ds) && ds != []
    ensures CutInto(own, ds, PushedWidth(|ds[0]|), own + Cut(ds))
  {
    forall i | 0 <= i < |ds|
      ensures PushedWidth(|ds[0]|) <= |ds[i]| && (own + Cut(ds))[|own|..][i] == ds[i][..PushedWidth(|ds[0]|)]
    {
      assert ds[i] in ds;
    }
  }

  /** The cut is as wide as the provider can take. */
  lemma {:induction false} PushedToWidest(r: R.SvmInstructionRequest)
    requires OneLength(r.discriminator) && r.discriminator != []
    ensures var w := PushedWidth(|r.discriminator[0]|);
            IsWidest(w, |r.discriminator[0]|) && PushedTo(r, Pushed(r), w)
  {
    var ds := r.discriminator;
    assert ds[0] in ds;
    var w, none: seq<Blob> := PushedWidth(|ds[0]|), [];
    CutsStand(if w == 1 then r.d1 else if w == 2 then r.d2 else if w == 3 then r.d3 else if w == 4 then r.d4 else r.d8,
              ds);
    assert r.d1 + none == r.d1 && r.d2 + none == r.d2 && r.d3 + none == r.d3 && r.d4 + none == r.d4
           && r.d8 + none == r.d8;
  }

  /** Nothing changes without discriminators; otherwise they go to the list of the widest width. */
  ghost predicate PushedAsKnown(r: R.SvmInstructionRequest, out: Remote) {
    if r.discriminator == [] then out == Remote(r.d1, r.d2, r.d3, r.d4, r.d8)
    else exists w :: IsWidest(w, |r.discriminator[0]|) && PushedTo(r, out, w)
  }

  lemma {:induction false} PushedLists(r: R.SvmInstructionRequest)
    requires OneLength(r.discriminator)
    ensures PushedAsKnown(r, Pushed(r))
  {
    if r.discriminator == [] {
      assert r.d1 + [] == r.d1 && r.d2 + [] == r.d2 && r.d3 + [] == r.d3 && r.d4 + [] == r.d4 && r.d8 + [] == r.d8;
    } else {
      PushedToWidest(r);
    }
  }

  /** Appends every discriminator, cut to a width the provider knows, to the list of that width. It
      fails exactly on an empty discriminator or on two of different lengths. */
  method PushDown(r: R.SvmInstructionRequest) returns (out: Result<Remote>)
    ensures out.Success? <==> OneLength(r.discriminator)
    ensures out.Success? ==> out.value == Pushed(r)
    ensures out.Success? <==> forall d | d in r.discriminator :: |d| == |r.discriminator[0]| > 0
    ensures out.Success? ==> PushedAsKnown(r, out.value)
  {
    if OneLength(r.discriminator) {
      PushedLists(r);
    }
    var ds := r.discriminator;
    if ds == [] {
      return Success(Remote(r.d1, r.d2, r.d3, r.d4, r.d8));
    }
    var len := |ds[0]|;
    var added: seq<Blob> := [];
    for i := 0 to |ds|
      invariant forall d | d in ds[..i] :: |d| == len && len > 0
      invariant |added| == i && forall j | 0 <= j < i :: added[j] == CutOne(ds[j])
    {
      assert ds[i] in ds && ds[..i + 1] == ds[..i] + [ds[i]];
      if |ds[i]| != len || len == 0 {
        return Failure;
      }
      added := added + [ds[i][..PushedWidth(len)]];
    }
    assert ds[..|ds|] == ds && added == Cut(ds);
    return Success(Placed(r, added, PushedWidth(len)));
  }

  function Placed(r: R.SvmInstructionRequest, added: seq<Blob>, w: nat): Remote {
    var none: seq<Blob> := [];
    Remote(r.d1 + (if w == 1 then added else none), r.d2 + (if w == 2 then added else none),
           r.d3 + (if w == 3 then added else none), r.d4 + (if w == 4 then added else none),
           r.d8 + (if w == 8 then added else none))
  }

  // ---------------------------------------------------------------- acceptance

  predicate Listed(list: seq<Blob>, w: nat, data: Blob) {
    list != [] ==> |data| >= w && data[..w] in list
  }

  /** The strictest reading of a remote request: every non-empty list has to match. */
  predicate RemoteAccepts(r: Remote, data: Blob) {
    && Listed(r.d1, 1, data) && Listed(r.d2, 2, data) && Listed(r.d3, 3, data) && Listed(r.d4, 4, data)
    && Listed(r.d8, 8, data)
  }

  predicate StartsWithAny(ds: seq<Blob>, data: Blob) {
    exists d :: d in ds && d <= data
  }

  /** The discriminator columns of an instruction row are prefixes of its data. */
  predicate PrefixColumn(t: T.Table, column: T.FieldName, w: nat, row: nat, data: Blob) {
    var c := T.CellOf(t, column, row);
    c.valid ==> |data| >= w && c.raw == T.Bytes(data[..w])
  }

  predicate InstructionRow(t: T.Table, row: nat, data: Blob) {
    && T.CellOf(t, "data", row).raw == T.Bytes(data)
    && PrefixColumn(t, "d1", 1, row, data) && PrefixColumn(t, "d2", 2, row, data)
    && PrefixColumn(t, "d4", 4, row, data) && PrefixColumn(t, "d8", 8, row, data)
  }

  lemma {:induction false} ListPasses(t: T.Table, lists: seq<R.ColumnList>, k: nat, row: nat)
    requires k < |lists| && Q.Passes(t, C.ToFilters(lists), row) && lists[k].values != []
    ensures Q.RowVerdict(t, C.ToFilter(lists[k]), row) == Some(true)
  {
    assert lists[k] in lists;
    assert C.ToFilter(lists[k]) in C.ToFilters(lists);
  }

  lemma {:induction false} BlobIsListed(column: T.FieldName, values: seq<Blob>, b: Blob)
    requires T.Bytes(b) in R.Binaries(column, values).values
    ensures b in values
  {
  }

  lemma {:induction false} WidthPasses(t: T.Table, lists: seq<R.ColumnList>, k: nat, column: T.FieldName,
                                       list: seq<Blob>,
                                       w: nat, row: nat, data: Blob)
    requires k < |lists| && lists[k] == R.Binaries(column, list) && column != "data"
    requires Q.Passes(t, C.ToFilters(lists), row) && PrefixColumn(t, column, w, row, data)
    ensures Listed(list, w, data)
  {
    if list != [] {
      ListPasses(t, lists, k, row);
      BlobIsListed(column, list, data[..w]);
    }
  }

  lemma {:induction false} DiscriminatorPasses(t: T.Table, lists: seq<R.ColumnList>, k: nat, ds: seq<Blob>, row: nat,
                                               data: Blob)
    requires k < |lists| && lists[k] == R.Binaries("data", ds) && ds != []
    requires Q.Passes(t, C.ToFilters(lists), row) && T.CellOf(t, "data", row).raw == T.Bytes(data)
    ensures StartsWithAny(ds, data)
  {
    ListPasses(t, lists, k, row);
    var p :| p in lists[k].values && Q.IsPrefixOf(p, T.Bytes(data));
    BlobIsListed("data", ds, p.b);
  }

  lemma {:induction false} CutIsListed(ds: seq<Blob>, data: Blob)
    requires OneLength(ds) && StartsWithAny(ds, data)
    ensures ds != [] && |data| >= PushedWidth(|ds[0]|) && data[..PushedWidth(|ds[0]|)] in Cut(ds)
  {
    var d :| d in ds && d <= data;
    var i :| 0 <= i < |ds| && ds[i] == d;
    assert Cut(ds)[i] == data[..PushedWidth(|ds[0]|)];
  }

  /** A list that matched still matches with the cut discriminators behind it, and they match alone. */
  lemma {:induction false} AddedIsListed(own: seq<Blob>, ds: seq<Blob>, w: nat, data: Blob)
    requires OneLength(ds) && Listed(own, w, data) && (ds != [] ==> StartsWithAny(ds, data))
    ensures Listed(own + Added(ds, w), w, data)
  {
    if Added(ds, w) != [] {
      CutIsListed(ds, data);
    }
  }

  predicate OwnListsMatch(r: R.SvmInstructionRequest, data: Blob) {
    && Listed(r.d1, 1, data) && Listed(r.d2, 2, data) && Listed(r.d4, 4, data) && Listed(r.d8, 8, data)
    && (r.discriminator != [] ==> StartsWithAny(r.discriminator, data))
  }

  lemma {:induction false} LocalFiltersMatch(r: R.SvmInstructionRequest, t: T.Table, row: nat, data: Blob)
    requires InstructionRow(t, row, data) && Q.Passes(t, C.ToFilters(R.SvmInstructionLists(r)), row)
    ensures OwnListsMatch(r, data)
  {
    var lists := R.SvmInstructionLists(r);
    WidthPasses(t, lists, 2, "d1", r.d1, 1, row, data);
    WidthPasses(t, lists, 3, "d2", r.d2, 2, row, data);
    WidthPasses(t, lists, 5, "d4", r.d4, 4, row, data);
    WidthPasses(t, lists, 6, "d8", r.d8, 8, row, data);
    if r.discriminator != [] {
      DiscriminatorPasses(t, lists, 1, r.discriminator, row, data);
    }
  }

  lemma {:induction false} PushedMatches(r: R.SvmInstructionRequest, data: Blob)
    requires OneLength(r.discriminator) && r.d3 == [] && OwnListsMatch(r, data)
    ensures RemoteAccepts(Pushed(r), data)
  {
    var ds := r.discriminator;
    AddedIsListed(r.d1, ds, 1, data);
    AddedIsListed(r.d2, ds, 2, data);
    AddedIsListed(r.d3, ds, 3, data);
    AddedIsListed(r.d4, ds, 4, data);
    AddedIsListed(r.d8, ds, 8, data);
  }

  /** No instruction is lost: one that the local filters accept satisfies the remote lists even when
      all of them have to match. (A requested d3 fails locally: there is no such column.) */
  lemma {:induction false} PushdownLosesNothing(r: R.SvmInstructionRequest, t: T.Table, row: nat, data: Blob)
    requires OneLength(r.discriminator) && r.d3 == []
    requires InstructionRow(t, row, data) && Q.Passes(t, C.ToFilters(R.SvmInstructionLists(r)), row)
    ensures RemoteAccepts(Pushed(r), data)
  {
    LocalFiltersMatch(r, t, row, data);
    PushedMatches(r, data);
  }

  // ---------------------------------------------------------------- exactness

  function OnlyDiscriminators(ds: seq<Blob>): Remote
    requires OneLength(ds)
  {
    Remote(Added(ds, 1), Added(ds, 2), Added(ds, 3), Added(ds, 4), Added(ds, 8))
  }

  /** Widths that are not cut. */
  predicate Uncut(len: nat) {
    len in {1, 2, 3, 4, 8}
  }

  lemma {:induction false} CutAccepts(ds: seq<Blob>, data: Blob)
    requires OneLength(ds) && ds != []
    ensures RemoteAccepts(OnlyDiscriminators(ds), data) <==>
            var w := PushedWidth(|ds[0]|); |data| >= w && data[..w] in Cut(ds)
  {
    assert ds[0] in ds;
    assert PushedWidth(|ds[0]|) in {1, 2, 3, 4, 8};
  }

  /** Discriminators alone are pushed down exactly when they are not cut: then the remote request accepts
      what the local prefix filter accepts, and otherwise it accepts some data the filter rejects. */
  lemma {:induction false} ExactIffUncut(ds: seq<Blob>)
    requires OneLength(ds) && ds != []
    ensures Uncut(|ds[0]|) <==> forall data :: RemoteAccepts(OnlyDiscriminators(ds), data) <==> StartsWithAny(ds, data)
  {
    assert ds[0] in ds;
    var w := PushedWidth(|ds[0]|);
    if Uncut(|ds[0]|) {
      forall data ensures RemoteAccepts(OnlyDiscriminators(ds), data) <==> StartsWithAny(ds, data) {
        UncutIsExact(ds, data);
      }
    } else {
      var data := CutOne(ds[0]);
      CutAccepts(ds, data);
      assert Cut(ds)[0] == data[..w];
      forall d | d in ds ensures !(d <= data) {
        assert |d| > w;
      }
      assert !StartsWithAny(ds, data);
    }
  }

  lemma {:induction false} UncutIsExact(ds: seq<Blob>, data: Blob)
    requires OneLength(ds) && ds != [] && Uncut(|ds[0]|)
    ensures RemoteAccepts(OnlyDiscriminators(ds), data) <==> StartsWithAny(ds, data)
  {
    var w := |ds[0]|;
    CutAccepts(ds, data);
    assert Cut(ds) == ds by {
      forall i | 0 <= i < |ds| ensures Cut(ds)[i] == ds[i] {
        assert ds[i] in ds;
      }
    }
    if StartsWithAny(ds, data) {
      CutIsListed(ds, data);
    }
    if |data| >= w && data[..w] in ds {
      assert data[..w] <= data;
    }
  }
}
