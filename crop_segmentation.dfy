/** The farmland parcel delineation dataset: the split-code array filled from the
    metadata table's split column and image ids, the mask path of every row, and
    the preparation of predictions for the segmentation metrics (the shape
    check, then the 0.5 threshold applied in place). Image loading and the
    metrics themselves are not modelled. */
module CropSegmentation {
  import opened Common
  import opened Seqs
  import opened Strings
  import Poverty
  import CropYield

  /** `_split_dict`, in its key order: each split and its code. */
  const SPLITS: seq<string> := ["train", "val", "test"]

  // ---------------------------------------------------------------------------
  // The split array.

  /** `metadata['ids'][metadata['split'] == split]`: the ids of the rows with
      that split label, in row order. */
  function IdsOf(labels: seq<string>, ids: seq<int>, split: string): (r: seq<int>)
    requires |labels| == |ids|
    ensures forall x :: x in r <==> exists i :: 0 <= i < |ids| && labels[i] == split && ids[i] == x
  {
    if ids == [] then []
    else
      var n := |ids| - 1;
      var init := IdsOf(labels[..n], ids[..n], split);
      assert forall i :: 0 <= i < n ==> labels[..n][i] == labels[i] && ids[..n][i] == ids[i];
      if labels[n] == split then init + [ids[n]] else init
  }

  /** A numpy index into `n` elements: negative ones count from the end. */
  predicate InRange(k: int, n: nat) { -(n as int) <= k < n }

  predicate AllInRange(ks: seq<int>, n: nat) { forall i :: 0 <= i < |ks| ==> InRange(ks[i], n) }

  function Normalise(k: int, n: nat): (p: nat)
    requires InRange(k, n)
    ensures p < n
    ensures k >= 0 ==> p == k
    ensures k < 0 ==> p == n + k
  {
    if k < 0 then n + k else k
  }

  function NormaliseAll(ks: seq<int>, n: nat): (r: seq<nat>)
    requires AllInRange(ks, n)
    ensures |r| == |ks|
    ensures forall i :: 0 <= i < |ks| ==> r[i] == Normalise(ks[i], n)
    ensures Poverty.AllBelow(r, n)
  {
    seq(|ks|, i requires 0 <= i < |ks| => Normalise(ks[i], n))
  }

  /** The array after the first `k` splits of the loop: -1 everywhere, then each
      split's ids set to its code; an id out of range fails with IndexError. */
  function ApplySplits(n: nat, labels: seq<string>, ids: seq<int>, k: nat): (r: Result<seq<int>>)
    requires |labels| == |ids| && k <= |SPLITS|
    ensures r.Ok? ==> |r.value| == n
    ensures r.Err? ==> r.error == IndexError
  {
    if k == 0 then Ok(seq(n, _ => -1))
    else
      var prev :- ApplySplits(n, labels, ids, k - 1);
      var sel := IdsOf(labels, ids, SPLITS[k - 1]);
      if AllInRange(sel, n) then Ok(Scatter(prev, NormaliseAll(sel, n), k - 1)) else Err(IndexError)
  }

  /** Once a split fails, so does the whole loop. */
  lemma {:induction false} ApplySplitsErrPersists(n: nat, labels: seq<string>, ids: seq<int>, k: nat, j: nat)
    requires |labels| == |ids| && k <= j <= |SPLITS|
    requires ApplySplits(n, labels, ids, k).Err?
    ensures ApplySplits(n, labels, ids, j).Err?
    decreases j - k
  {
    if j > k {
      ApplySplitsErrPersists(n, labels, ids, k, j - 1);
    }
  }

  /** The `_split_array` of `__init__`: -1 for every row of the table, then the
      rows named by the train, val and test ids get 0, 1 and 2, in that order. */
  method BuildSplitArray(n: nat, labels: seq<string>, ids: seq<int>) returns (r: Result<seq<int>>)
    requires |labels| == |ids|
    ensures r == ApplySplits(n, labels, ids, |SPLITS|)
  {
    var a := new int[n](_ => -1);
    assert a[..] == seq(n, _ => -1);
    for k := 0 to |SPLITS|
      invariant ApplySplits(n, labels, ids, k) == Ok(a[..])
    {
      var sel := IdsOf(labels, ids, SPLITS[k]);
      if !AllInRange(sel, n) {
        ApplySplitsErrPersists(n, labels, ids, k + 1, |SPLITS|);
        return Err(IndexError);
      }
      Poverty.ScatterInto(a, NormaliseAll(sel, n), k);
    }
    return Ok(a[..]);
  }

  /** Some row with split label `split` has an id naming position `p`, as positions of the array. */
  ghost predicate Names(n: nat, labels: seq<string>, ids: seq<int>, split: string, p: nat)
    requires |labels| == |ids|
  {
    exists i :: 0 <= i < |ids| && labels[i] == split && InRange(ids[i], n) && Normalise(ids[i], n) == p
  }

  lemma NormalisedMember(n: nat, labels: seq<string>, ids: seq<int>, split: string, p: nat)
    requires |labels| == |ids| && AllInRange(IdsOf(labels, ids, split), n)
    ensures p in NormaliseAll(IdsOf(labels, ids, split), n) <==> Names(n, labels, ids, split, p)
  {
    var sel := IdsOf(labels, ids, split);
    var norm := NormaliseAll(sel, n);
    if p in norm {
      var j :| 0 <= j < |norm| && norm[j] == p;
      assert sel[j] in sel;
      var i :| 0 <= i < |ids| && labels[i] == split && ids[i] == sel[j];
    }
    if Names(n, labels, ids, split, p) {
      var i :| 0 <= i < |ids| && labels[i] == split && InRange(ids[i], n) && Normalise(ids[i], n) == p;
      assert ids[i] in sel;
      var j :| 0 <= j < |sel| && sel[j] == ids[i];
      assert norm[j] == p;
    }
  }

  /** The loop fails exactly when some train, val or test id is out of range;
      otherwise a later split overrides an earlier one: a row named by a test id
      holds 2, else one named by a val id 1, else one named by a train id 0, and
      every row no split names keeps -1. */
  lemma SplitArrayPriority(n: nat, labels: seq<string>, ids: seq<int>)
    requires |labels| == |ids|
    ensures ApplySplits(n, labels, ids, 3).Ok? <==>
              forall s :: 0 <= s < 3 ==> AllInRange(IdsOf(labels, ids, SPLITS[s]), n)
    ensures ApplySplits(n, labels, ids, 3).Ok? ==>
              forall p: nat :: p < n ==>
                ApplySplits(n, labels, ids, 3).value[p] ==
                  if Names(n, labels, ids, "test", p) then 2
                  else if Names(n, labels, ids, "val", p) then 1
                  else if Names(n, labels, ids, "train", p) then 0
                  else -1
  {
    var r1 := ApplySplits(n, labels, ids, 1);
    var r2 := ApplySplits(n, labels, ids, 2);
    var r3 := ApplySplits(n, labels, ids, 3);
    if r3.Ok? {
      ApplySplitsOkBefore(n, labels, ids);
      var train := IdsOf(labels, ids, "train");
      var val := IdsOf(labels, ids, "val");
      var test := IdsOf(labels, ids, "test");
      forall p: nat | p < n
        ensures r3.value[p] == if Names(n, labels, ids, "test", p) then 2
                               else if Names(n, labels, ids, "val", p) then 1
                               else if Names(n, labels, ids, "train", p) then 0
                               else -1
      {
        NormalisedMember(n, labels, ids, "train", p);
        NormalisedMember(n, labels, ids, "val", p);
        NormalisedMember(n, labels, ids, "test", p);
        ScatterAt(seq(n, _ => -1), NormaliseAll(train, n), 0, p);
        ScatterAt(r1.value, NormaliseAll(val, n), 1, p);
        ScatterAt(r2.value, NormaliseAll(test, n), 2, p);
      }
    }
    SplitArrayFails(n, labels, ids, 3);
  }

  lemma ApplySplitsOkBefore(n: nat, labels: seq<string>, ids: seq<int>)
    requires |labels| == |ids| && ApplySplits(n, labels, ids, 3).Ok?
    ensures ApplySplits(n, labels, ids, 1).Ok? && ApplySplits(n, labels, ids, 2).Ok?
    ensures ApplySplits(n, labels, ids, 1).value == Scatter(seq(n, _ => -1), NormaliseAll(IdsOf(labels, ids, "train"), n), 0)
    ensures ApplySplits(n, labels, ids, 2).value ==
              Scatter(ApplySplits(n, labels, ids, 1).value, NormaliseAll(IdsOf(labels, ids, "val"), n), 1)
    ensures ApplySplits(n, labels, ids, 3).value ==
              Scatter(ApplySplits(n, labels, ids, 2).value, NormaliseAll(IdsOf(labels, ids, "test"), n), 2)
  {
    SplitArrayFails(n, labels, ids, 3);
    SplitArrayFails(n, labels, ids, 2);
    SplitArrayFails(n, labels, ids, 1);
  }

  /** The first `k` splits succeed exactly when their ids are all in range. */
  lemma {:induction false} SplitArrayFails(n: nat, labels: seq<string>, ids: seq<int>, k: nat)
    requires |labels| == |ids| && k <= |SPLITS|
    ensures ApplySplits(n, labels, ids, k).Ok? <==>
              forall s :: 0 <= s < k ==> AllInRange(IdsOf(labels, ids, SPLITS[s]), n)
  {
    if k > 0 {
      SplitArrayFails(n, labels, ids, k - 1);
    }
  }

  // ---------------------------------------------------------------------------
  // Mask paths.

  /** `_y_array`: the mask of every row, in row order, under `masks_filled` or
      `masks`. */
  function YArray(root: string, indices: seq<nat>, filledMask: bool): (r: seq<string>)
    ensures |r| == |indices|
    ensures forall i :: 0 <= i < |indices| ==>
              r[i] == PathJoin(PathJoin(root, if filledMask then "masks_filled" else "masks"),
                               NatToDecimal(indices[i]) + ".png")
  {
    var folder := PathJoin(root, if filledMask then "masks_filled" else "masks");
    seq(|indices|, i requires 0 <= i < |indices| => PathJoin(folder, NatToDecimal(indices[i]) + ".png"))
  }

  /** Rows with distinct indices get distinct masks. */
  lemma YArrayDistinct(root: string, indices: seq<nat>, filledMask: bool, i: nat, j: nat)
    requires i < |indices| && j < |indices| && indices[i] != indices[j]
    ensures YArray(root, indices, filledMask)[i] != YArray(root, indices, filledMask)[j]
  {
    var folder := PathJoin(root, if filledMask then "masks_filled" else "masks") + "/";
    var a, b := NatToDecimal(indices[i]), NatToDecimal(indices[j]);
    NatToDecimalInjective(indices[i], indices[j]);
    var ya := YArray(root, indices, filledMask)[i];
    var yb := YArray(root, indices, filledMask)[j];
    assert ya == folder + (a + ".png");
    assert yb == folder + (b + ".png");
    CancelSuffix(a, b, ".png");
    assert ya[|folder|..] == a + ".png" && yb[|folder|..] == b + ".png";
  }

  /** No filled mask path is an outline mask path, not even the same row's. */
  lemma FilledMasksApart(root: string, indices: seq<nat>, i: nat, j: nat)
    requires i < |indices| && j < |indices|
    ensures YArray(root, indices, true)[i] != YArray(root, indices, false)[j]
  {
    var f := YArray(root, indices, true)[i];
    var o := YArray(root, indices, false)[j];
    assert f[|root| + 6] == '_';
    assert o[|root| + 6] == '/';
  }

  lemma CancelSuffix(a: string, b: string, e: string)
    ensures a + e == b + e ==> a == b
  {
    if a + e == b + e {
      assert a == (a + e)[..|a|];
      assert b == (b + e)[..|b|];
    }
  }

  // ---------------------------------------------------------------------------
  // Predictions for the metrics.

  /** The prediction after `y_pred[y_pred > 0.5] = 1; y_pred[y_pred != 1] = 0`. */
  function Threshold(x: real): (b: real)
    ensures b == 0.0 || b == 1.0
    ensures b == 1.0 <==> x > 0.5
  {
    if x > 0.5 then 1.0 else 0.0
  }

  /** The two masked assignments, in place and in order. */
  method Binarise(y: array<real>)
    modifies y
    ensures forall i :: 0 <= i < y.Length ==> y[i] == Threshold(old(y[i]))
  {
    for i := 0 to y.Length
      invariant forall j :: 0 <= j < i ==> y[j] == (if old(y[j]) > 0.5 then 1.0 else old(y[j]))
      invariant forall j :: i <= j < y.Length ==> y[j] == old(y[j])
    {
      if y[i] > 0.5 {
        y[i] := 1.0;
      }
    }
    for i := 0 to y.Length
      invariant forall j :: 0 <= j < i ==> y[j] == Threshold(old(y[j]))
      invariant forall j :: i <= j < y.Length ==> y[j] == (if old(y[j]) > 0.5 then 1.0 else old(y[j]))
    {
      if y[i] != 1.0 {
        y[i] := 0.0;
      }
    }
  }

  /** numpy `astype(int)`: truncation toward zero. */
  function Truncate(x: real): (k: int)
    ensures x >= 0.0 ==> k as real <= x < k as real + 1.0
    ensures x < 0.0 ==> k as real - 1.0 < x <= k as real
  {
    if x >= 0.0 then x.Floor else -((-x).Floor)
  }

  /** `crop_segmentation_metrics` up to the metric calls: the flattened shapes
      must agree (else AssertionError); `flatten` copies the predictions, the copy
      is thresholded unless they are already binarised, and the copy is read as
      integers. The caller's predictions are never modified. */
  method PreparePredictions(trueShape: seq<nat>, predShape: seq<nat>, yPred: array<real>, binarized: bool)
    returns (r: Result<seq<int>>)
    requires CropYield.Product(predShape) == yPred.Length
    ensures r.Err? <==> CropYield.FlattenedShapesAgree(trueShape, predShape).Err?
    ensures r.Err? ==> r.error == AssertionError
    ensures r.Ok? ==> |r.value| == yPred.Length
    ensures r.Ok? && binarized ==> forall i :: 0 <= i < yPred.Length ==> r.value[i] == Truncate(yPred[i])
    ensures r.Ok? && !binarized ==> forall i :: 0 <= i < yPred.Length ==> r.value[i] == Truncate(Threshold(yPred[i]))
    ensures r.Ok? && !binarized ==> forall i :: 0 <= i < |r.value| ==> r.value[i] == 0 || r.value[i] == 1
  {
    var agreed := CropYield.FlattenedShapesAgree(trueShape, predShape);
    if agreed.Err? {
      return Err(AssertionError);
    }
    var flat := new real[yPred.Length](i requires 0 <= i < yPred.Length reads yPred => yPred[i]);
    if !binarized {
      Binarise(flat);
    }
    r := Ok(seq(flat.Length, i requires 0 <= i < flat.Length reads flat => Truncate(flat[i])));
  }
}
