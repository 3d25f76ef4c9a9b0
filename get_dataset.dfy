/** `get_dataset`: from a dataset name and an optional version to the dataset
    class that is constructed. The other keyword arguments are passed through
    untouched and are not modelled; the constructors themselves are modelled in
    the dataset modules. */
module GetDataset {
  import opened Common
  import opened Strings

  /** The package's `benchmark_datasets` and `additional_datasets`. */
  const BENCHMARK_DATASETS: seq<string> :=
    ["poverty", "fmow", "africa_crop_type_mapping", "crop_delineation", "crop_type_kenya", "brick_kiln"]
  const ADDITIONAL_DATASETS: seq<string> := ["crop_yield"]
  const SUPPORTED_DATASETS: seq<string> := BENCHMARK_DATASETS + ADDITIONAL_DATASETS

  /** A version as the caller may pass it: a string, an integer, or a float
      with one decimal place (`units.tenths`). */
  datatype VersionValue = VStr(s: string) | VInt(i: int) | VFloat(units: nat, tenths: nat)

  /** Python `str(version)`. */
  function VersionString(v: VersionValue): (r: string)
    requires v.VFloat? ==> v.tenths < 10
    ensures v.VStr? ==> r == v.s
    ensures v.VInt? ==> '.' !in r
    ensures v.VFloat? ==> r == NatToDecimal(v.units) + "." + [DigitChar(v.tenths)]
  {
    match v
    case VStr(s) => s
    case VInt(i) => NoDotInDecimal(i); IntToDecimal(i)
    case VFloat(units, tenths) => NatToDecimal(units) + "." + [DigitChar(tenths)]
  }

  lemma NoDotInDecimal(i: int)
    ensures '.' !in IntToDecimal(i)
  {
    var r := IntToDecimal(i);
    var digits := NatToDecimal(if i < 0 then -i else i);
    forall k | 0 <= k < |digits|
      ensures digits[k] != '.'
    {
      assert IsDigit(digits[k]);
    }
    if i < 0 {
      assert r == "-" + digits;
    }
  }

  /** The dataset classes `get_dataset` can construct; the `...V1_0` ones are
      the archived classes of version 1.0. */
  datatype DatasetClass =
    | PovertyV1_0 | Poverty
    | FMoWV1_0 | FMoW
    | CropTypeMapping
    | CropTypeKenya
    | CropSegmentationV1_0 | CropSegmentation
    | CropYield
    | BrickKiln

  /** The dataset name each class is constructed for. */
  function ClassDataset(c: DatasetClass): string
  {
    match c
    case PovertyV1_0 | Poverty => "poverty"
    case FMoWV1_0 | FMoW => "fmow"
    case CropTypeMapping => "africa_crop_type_mapping"
    case CropTypeKenya => "crop_type_kenya"
    case CropSegmentationV1_0 | CropSegmentation => "crop_delineation"
    case CropYield => "crop_yield"
    case BrickKiln => "brick_kiln"
  }

  predicate IsArchive(c: DatasetClass)
  {
    c == PovertyV1_0 || c == FMoWV1_0 || c == CropSegmentationV1_0
  }

  /** A class, constructed with the version as a string (or None). */
  datatype Constructed = Constructed(cls: DatasetClass, version: Option<string>)

  /** The if/elif chain. A name that no branch handles would fall through and
      return None. */
  function GetDataset(dataset: string, version: Option<VersionValue>): (r: Result<Option<Constructed>>)
    requires version.Some? && version.value.VFloat? ==> version.value.tenths < 10
    ensures r.Err? <==> dataset !in SUPPORTED_DATASETS
    ensures r.Err? ==> r.error.ValueError?
  {
    var v := if version.Some? then Some(VersionString(version.value)) else None;
    var archived := v == Some("1.0");
    if dataset !in SUPPORTED_DATASETS then
      Err(ValueError("The dataset " + dataset + " is not recognized."))
    else if dataset == "poverty" then
      Ok(Some(Constructed(if archived then PovertyV1_0 else Poverty, v)))
    else if dataset == "fmow" then
      Ok(Some(Constructed(if archived then FMoWV1_0 else FMoW, v)))
    else if dataset == "africa_crop_type_mapping" then
      Ok(Some(Constructed(CropTypeMapping, v)))
    else if dataset == "crop_type_kenya" then
      Ok(Some(Constructed(CropTypeKenya, v)))
    else if dataset == "crop_delineation" then
      Ok(Some(Constructed(if archived then CropSegmentationV1_0 else CropSegmentation, v)))
    else if dataset == "crop_yield" then
      Ok(Some(Constructed(CropYield, v)))
    else if dataset == "brick_kiln" then
      Ok(Some(Constructed(BrickKiln, v)))
    else
      Ok(None)
  }

  /** Every supported name has its branch: the chain never falls through, the
      class built is one for the requested name, and it receives the version as
      a string. The archived class is chosen exactly when the version reads
      '1.0' and the dataset has an archived class. */
  lemma GetDatasetDispatch(dataset: string, version: Option<VersionValue>)
    requires version.Some? && version.value.VFloat? ==> version.value.tenths < 10
    requires dataset in SUPPORTED_DATASETS
    ensures GetDataset(dataset, version).Ok? && GetDataset(dataset, version).value.Some?
    ensures var c := GetDataset(dataset, version).value.value;
            && ClassDataset(c.cls) == dataset
            && c.version == (if version.Some? then Some(VersionString(version.value)) else None)
            && (IsArchive(c.cls) <==>
                  c.version == Some("1.0") && dataset in ["poverty", "fmow", "crop_delineation"])
  {
    assert dataset in BENCHMARK_DATASETS || dataset in ADDITIONAL_DATASETS;
  }

  /** The version is compared as a string: '1.0' and the float 1.0 select the
      archive, the integer 1 does not, and no integer ever does. */
  lemma VersionRouting(i: int)
    ensures GetDataset("poverty", Some(VStr("1.0"))) == Ok(Some(Constructed(PovertyV1_0, Some("1.0"))))
    ensures GetDataset("fmow", Some(VFloat(1, 0))) == Ok(Some(Constructed(FMoWV1_0, Some("1.0"))))
    ensures GetDataset("crop_delineation", Some(VInt(i))).value.value.cls == CropSegmentation
    ensures GetDataset("poverty", None) == Ok(Some(Constructed(Poverty, None)))
  {
    assert "poverty" == SUPPORTED_DATASETS[0] && "fmow" == SUPPORTED_DATASETS[1];
    assert "crop_delineation" == SUPPORTED_DATASETS[3];
    assert NatToDecimal(1) == "1";
    assert "1" + "." + [DigitChar(0)] == "1.0";
    assert VersionString(VInt(i)) != "1.0" by {
      assert "1.0"[1] == '.';
    }
  }
}
