/** The Kenya crop-type dataset: the crop label table built at module load, the
    choice of the fold column from the training region, the replacement of
    crop names by their labels, and the lookup of a field's rows by field id. */
module CropTypeKenya {
  import opened Common
  import opened Strings
  import opened Seqs
  import CropTypeMapping

  const NUM_CLASSES: nat := 9

  const CROPS: seq<string> :=
    ["banana", "beans", "cassava", "groundnut", "maize", "non-crop", "other", "sugarcane", "sweet potatoes"]

  const REGIONS: seq<string> := ["Bungoma", "Busia", "Siaya"]

  // ---------------------------------------------------------------------------
  // The crop label table.

  /** The module-level `for i, crop in enumerate(CROPS)` loop. */
  method BuildCropLabels(crops: seq<string>) returns (labels: map<string, nat>)
    ensures labels == LastPositions(crops)
  {
    labels := map[];
    for i := 0 to |crops|
      invariant labels == LastPositions(crops[..i])
    {
      assert crops[..i + 1][..i] == crops[..i];
      labels := labels[crops[i] := i];
    }
    assert crops[..|crops|] == crops;
  }

  /** Over distinct names the table gives every name its position: a bijection
      onto 0..n-1. */
  lemma CropLabelsIndexNames(crops: seq<string>)
    requires forall i, j :: 0 <= i < j < |crops| ==> crops[i] != crops[j]
    ensures CropTypeMapping.IndexesNames(LastPositions(crops), crops)
  {
    LastPositionsSpec(crops);
    var t := LastPositions(crops);
    forall i | 0 <= i < |crops|
      ensures crops[i] in t && t[crops[i]] == i
    {
      assert crops[i] in t;
      var p := t[crops[i]];
      assert crops[p] == crops[i];
    }
  }

  /** `CROP_LABELS[CROPS[i]] == i` for every crop, the labels are exactly
      0..8, and there are `NUM_CLASSES` of them. */
  lemma CropLabelsTable()
    ensures CropTypeMapping.IndexesNames(LastPositions(CROPS), CROPS)
    ensures forall v: nat :: v in LastPositions(CROPS).Values <==> v < NUM_CLASSES
    ensures |CROPS| == NUM_CLASSES
  {
    CropLabelsIndexNames(CROPS);
    CropTypeMapping.IndexTableBijective(LastPositions(CROPS), CROPS);
  }

  // ---------------------------------------------------------------------------
  // Fold column.

  /** The fold column of `training_set`: 'random' reads 'fold_random', a region
      reads 'fold_<region in lower case>_test'; anything else fails with ValueError. */
  function FoldColumn(trainingSet: string): (r: Result<string>)
    ensures r.Ok? <==> trainingSet in REGIONS || trainingSet == "random"
    ensures r.Err? ==> r.error.ValueError?
    ensures trainingSet == "random" ==> r == Ok("fold_random")
    ensures trainingSet in REGIONS ==> r == Ok("fold_" + Lower(trainingSet) + "_test")
  {
    if trainingSet !in REGIONS + ["random"] then
      Err(ValueError("Training set " + trainingSet + " not recognized"))
    else if trainingSet == "random" then Ok("fold_random")
    else Ok("fold_" + Lower(trainingSet) + "_test")
  }

  /** Each accepted training set reads its own fold column. */
  lemma FoldColumnsDistinct(a: string, b: string)
    requires FoldColumn(a).Ok? && FoldColumn(b).Ok? && a != b
    ensures FoldColumn(a).value != FoldColumn(b).value
  {
    FoldColumnTag(a);
    FoldColumnTag(b);
  }

  /** Characters 5 and 7 of each fold column name tell the four apart. */
  function FoldTag(trainingSet: string): (char, char)
  {
    if trainingSet == "random" then ('r', 'n')
    else if trainingSet == "Bungoma" then ('b', 'n')
    else if trainingSet == "Busia" then ('b', 's')
    else ('s', 'a')
  }

  lemma FoldColumnTag(trainingSet: string)
    requires FoldColumn(trainingSet).Ok?
    ensures |FoldColumn(trainingSet).value| > 7
    ensures (FoldColumn(trainingSet).value[5], FoldColumn(trainingSet).value[7]) == FoldTag(trainingSet)
    ensures trainingSet == "random" || trainingSet == "Bungoma" || trainingSet == "Busia" || trainingSet == "Siaya"
  {
    var v := FoldColumn(trainingSet).value;
    assert trainingSet == "random" || trainingSet == REGIONS[0] || trainingSet == REGIONS[1] || trainingSet == REGIONS[2];
    if trainingSet == "random" {
      assert v == "fold_random";
    } else if trainingSet == REGIONS[0] {
      FoldBungoma();
      assert v == "fold_bungoma_test";
    } else if trainingSet == REGIONS[1] {
      FoldBusia();
      assert v == "fold_busia_test";
    } else {
      FoldSiaya();
      assert v == "fold_siaya_test";
    }
  }

  lemma FoldColumnValues()
    ensures FoldColumn("random") == Ok("fold_random")
    ensures FoldColumn("Bungoma") == Ok("fold_bungoma_test")
    ensures FoldColumn("Busia") == Ok("fold_busia_test")
    ensures FoldColumn("Siaya") == Ok("fold_siaya_test")
  {
    FoldBungoma();
    FoldBusia();
    FoldSiaya();
  }

  lemma FoldBungoma()
    ensures FoldColumn("Bungoma") == Ok("fold_bungoma_test")
  {
    assert "Bungoma" == REGIONS[0];
    LowerRegion("Bungoma", "bungoma");
    assert "fold_" + "bungoma" + "_test" == "fold_bungoma_test";
  }

  lemma FoldBusia()
    ensures FoldColumn("Busia") == Ok("fold_busia_test")
  {
    assert "Busia" == REGIONS[1];
    LowerRegion("Busia", "busia");
    assert "fold_" + "busia" + "_test" == "fold_busia_test";
  }

  lemma FoldSiaya()
    ensures FoldColumn("Siaya") == Ok("fold_siaya_test")
  {
    assert "Siaya" == REGIONS[2];
    LowerRegion("Siaya", "siaya");
    assert "fold_" + "siaya" + "_test" == "fold_siaya_test";
  }

  /** A capitalised name lowers to the same name with a small first letter. */
  lemma LowerRegion(region: string, lower: string)
    requires |region| == |lower| && |region| > 0
    requires 'A' <= region[0] <= 'Z' && lower[0] as int == region[0] as int + 32
    requires forall i :: 1 <= i < |region| ==> 'a' <= region[i] <= 'z' && lower[i] == region[i]
    ensures Lower(region) == lower
  {
    var r := Lower(region);
    forall i | 0 <= i < |region|
      ensures r[i] == lower[i]
    {
      assert r[i] == LowerChar(region[i]);
    }
  }

  // ---------------------------------------------------------------------------
  // Labels.

  /** `cropType.replace(CROP_LABELS)` and the conversion to a tensor: every crop
      name becomes its label; a name the table does not know stays a string,
      which the tensor conversion refuses. */
  function ReplaceLabels(cropTypes: seq<string>, labels: map<string, nat>): (r: Result<seq<nat>>)
    ensures r.Ok? <==> forall i :: 0 <= i < |cropTypes| ==> cropTypes[i] in labels
    ensures r.Err? ==> r.error == TypeError
    ensures r.Ok? ==> |r.value| == |cropTypes|
    ensures r.Ok? ==> forall i :: 0 <= i < |cropTypes| ==> r.value[i] == labels[cropTypes[i]]
  {
    if forall i :: 0 <= i < |cropTypes| ==> cropTypes[i] in labels then
      Ok(seq(|cropTypes|, i requires 0 <= i < |cropTypes| => labels[cropTypes[i]]))
    else
      Err(TypeError)
  }

  /** The labels read back as the crop names: `CROPS[label] == cropType`. */
  lemma ReplaceLabelsRoundTrip(cropTypes: seq<string>)
    requires ReplaceLabels(cropTypes, LastPositions(CROPS)).Ok?
    ensures var r := ReplaceLabels(cropTypes, LastPositions(CROPS)).value;
            forall i :: 0 <= i < |cropTypes| ==> r[i] < NUM_CLASSES && CROPS[r[i]] == cropTypes[i]
  {
    LastPositionsSpec(CROPS);
  }

  // ---------------------------------------------------------------------------
  // Lookup by field id.

  /** The rows whose field id is `key`, in row order. */
  function MatchingRows<K(==)>(ids: seq<K>, key: K): (r: seq<nat>)
    ensures forall j :: 0 <= j < |r| ==> r[j] < |ids| && ids[r[j]] == key
    ensures forall j, l :: 0 <= j < l < |r| ==> r[j] < r[l]
    ensures forall i :: 0 <= i < |ids| && ids[i] == key ==> i in r
  {
    if ids == [] then []
    else
      var init := MatchingRows(ids[..|ids| - 1], key);
      assert forall j :: 0 <= j < |init| ==> init[j] < |ids| - 1;
      if ids[|ids| - 1] == key then init + [|ids| - 1] else init
  }

  /** `column[(ids == key).nonzero()]`: `get_label` with the label column, and
      `get_input` with the file-name column. */
  function SelectByFieldId<K(==), V>(ids: seq<K>, column: seq<V>, key: K): (r: seq<V>)
    requires |column| == |ids|
    ensures |r| == |MatchingRows(ids, key)|
    ensures forall j :: 0 <= j < |r| ==> r[j] == column[MatchingRows(ids, key)[j]]
  {
    var rows := MatchingRows(ids, key);
    seq(|rows|, j requires 0 <= j < |rows| => column[rows[j]])
  }

  lemma {:induction false} NoMatchingRows<K>(ids: seq<K>, key: K)
    requires key !in ids
    ensures MatchingRows(ids, key) == []
  {
    if ids != [] {
      NoMatchingRows(ids[..|ids| - 1], key);
    }
  }

  lemma {:induction false} OneMatchingRow<K>(ids: seq<K>, key: K, i: nat)
    requires i < |ids| && ids[i] == key
    requires forall j :: 0 <= j < |ids| && j != i ==> ids[j] != key
    ensures MatchingRows(ids, key) == [i]
  {
    var init := ids[..|ids| - 1];
    if i == |ids| - 1 {
      NoMatchingRows(init, key);
    } else {
      OneMatchingRow(init, key, i);
    }
  }

  /** A field id that names no row selects nothing; one that names exactly one
      row selects that row's value alone. */
  lemma SelectUniqueField<K, V>(ids: seq<K>, column: seq<V>, key: K)
    requires |column| == |ids|
    ensures key !in ids ==> SelectByFieldId(ids, column, key) == []
    ensures forall i :: 0 <= i < |ids| && ids[i] == key && (forall j :: 0 <= j < |ids| && j != i ==> ids[j] != key)
              ==> SelectByFieldId(ids, column, key) == [column[i]]
  {
    if key !in ids {
      NoMatchingRows(ids, key);
    }
    forall i | 0 <= i < |ids| && ids[i] == key && (forall j :: 0 <= j < |ids| && j != i ==> ids[j] != key)
      ensures SelectByFieldId(ids, column, key) == [column[i]]
    {
      OneMatchingRow(ids, key, i);
    }
  }

  // ---------------------------------------------------------------------------
  // `get_label` and `get_input` as written.

  /** The right-hand side of `self._y_array == ...`: an integer, or the string
      `str(idx)` the source passes. */
  datatype FieldKey = IntKey(k: int) | StrKey(s: string)

  /** `column[(self._y_array == key).nonzero(as_tuple=True)[0]]`. `_y_array`
      comes from `torch.from_numpy`, which takes only numeric columns, so the field
      ids are integers. Compared with an integer the tensor gives a mask, whose
      true rows are selected; compared with a string it gives the plain value
      False, which has no `nonzero` (AttributeError). */
  function LookupByFieldId<V>(ids: seq<int>, column: seq<V>, key: FieldKey): (r: Result<seq<V>>)
    requires |column| == |ids|
    ensures r.Err? <==> key.StrKey?
    ensures r.Err? ==> r.error == AttributeError
    ensures key.IntKey? ==> r == Ok(SelectByFieldId(ids, column, key.k))
  {
    match key
    case IntKey(k) => Ok(SelectByFieldId(ids, column, k))
    case StrKey(_) => Err(AttributeError)
  }

  /** As written, `get_label(idx)` and `get_input(idx)` look up `str(idx)` and fail
      even for an id that names exactly one row, where the lookup by the integer
      id selects that row's value. */
  lemma LookupAsWrittenFails<V>(ids: seq<int>, column: seq<V>, idx: int, i: nat)
    requires |column| == |ids| && i < |ids| && ids[i] == idx
    requires forall j :: 0 <= j < |ids| && j != i ==> ids[j] != idx
    ensures LookupByFieldId(ids, column, StrKey(IntToDecimal(idx))) == Err(AttributeError)
    ensures LookupByFieldId(ids, column, IntKey(idx)) == Ok([column[i]])
  {
    SelectUniqueField(ids, column, idx);
  }
}
