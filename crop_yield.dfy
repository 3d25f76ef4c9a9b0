/** The crop-yield dataset's bookkeeping: the split scheme and its country,
    the file names of a split, the split-code column aligned with the
    concatenated splits, the regions read off each key, the sorted distinct
    region tables with their index maps, and the shape check of the metrics.
    Loading the arrays is I/O; the loaded arrays are parameters. */
module CropYield {
  import opened Common
  import opened Strings

  /** The scheme must be 'official', 'usa', 'argentina' or 'brazil'; 'official'
      means the USA. */
  function SchemeCountry(splitScheme: string): (r: Result<string>)
    ensures r.Ok? <==> splitScheme in ["official", "usa", "argentina", "brazil"]
    ensures r.Ok? ==> r.value in ["usa", "argentina", "brazil"]
    ensures r.Ok? && splitScheme != "official" ==> r.value == splitScheme
    ensures splitScheme == "official" ==> r == Ok("usa")
    ensures r.Err? ==> r.error == ValueError("Split scheme " + splitScheme + " not recognized")
  {
    if splitScheme !in ["official", "usa", "argentina", "brazil"] then
      Err(ValueError("Split scheme " + splitScheme + " not recognized"))
    else if splitScheme == "official" then Ok("usa")
    else Ok(splitScheme)
  }

  /** The four files of one split of one country. */
  datatype SplitFiles = SplitFiles(histsFile: string, yieldsFile: string, yearsFile: string, keysFile: string)

  /** `_load_split`'s file naming: train is stored as 'train', val as 'dev',
      test as 'test'; any other split fails. Whether the directory exists is
      not modelled. */
  function LoadSplitFiles(dataDir: string, split: string, country: string): (r: Result<SplitFiles>)
    ensures r.Ok? <==> split in ["train", "val", "test"]
    ensures r.Err? ==> r.error == ValueError("Loading split " + split + " not supported")
    ensures r.Ok? ==>
              var fname := if split == "val" then "dev" else split;
              var dir := PathJoin(dataDir, country);
              r.value == SplitFiles(PathJoin(dir, fname + "_hists.npz"), PathJoin(dir, fname + "_yields.npz"),
                                    PathJoin(dir, fname + "_years.npz"), PathJoin(dir, fname + "_keys.npz"))
  {
    var splitFname := map["train" := "train", "val" := "dev", "test" := "test"];
    if split !in splitFname then Err(ValueError("Loading split " + split + " not supported"))
    else
      var fname := splitFname[split];
      var dir := PathJoin(dataDir, country);
      Ok(SplitFiles(PathJoin(dir, fname + "_hists.npz"), PathJoin(dir, fname + "_yields.npz"),
                    PathJoin(dir, fname + "_years.npz"), PathJoin(dir, fname + "_keys.npz")))
  }

  // ---------------------------------------------------------------------------
  // Concatenated splits.

  /** `np.ones_like(labels) * code` for each split, concatenated: train 0, val 1, test 2. */
  function SplitColumn(nTrain: nat, nVal: nat, nTest: nat): (r: seq<int>)
    ensures |r| == nTrain + nVal + nTest
  {
    seq(nTrain, _ => 0) + seq(nVal, _ => 1) + seq(nTest, _ => 2)
  }

  /** Row `i` of the concatenated columns comes from the split the split column
      names, at the matching position inside that split. */
  lemma SplitColumnAligned<T>(train: seq<T>, val: seq<T>, test: seq<T>, i: nat)
    requires i < |train| + |val| + |test|
    ensures var code := SplitColumn(|train|, |val|, |test|)[i];
      var row := (train + val + test)[i];
      && (code == 0 <==> i < |train|)
      && (code == 1 <==> |train| <= i < |train| + |val|)
      && (code == 2 <==> |train| + |val| <= i)
      && (code == 0 ==> row == train[i])
      && (code == 1 ==> row == val[i - |train|])
      && (code == 2 ==> row == test[i - |train| - |val|])
  {
  }

  // ---------------------------------------------------------------------------
  // Regions from keys.

  /** `zip(*[k.split("_") for k in keys])` unpacked into three columns: zip stops
      at the shortest key, so it succeeds exactly when there is a key and the
      fewest pieces any key has is three. The first two pieces are the regions. */
  function KeyRegions(keys: seq<string>): (r: Result<(seq<string>, seq<string>)>)
    ensures r.Ok? <==> |keys| > 0 && MinPieces(keys) == 3
    ensures r.Err? ==> r.error.ValueError?
    ensures r.Ok? ==> |r.value.0| == |keys| && |r.value.1| == |keys|
    ensures r.Ok? ==> forall i :: 0 <= i < |keys| ==>
              |Split(keys[i], '_') | >= 3 &&
              r.value.0[i] == Split(keys[i], '_')[0] && r.value.1[i] == Split(keys[i], '_')[1]
  {
    if |keys| == 0 then Err(ValueError("not enough values to unpack (expected 3, got 0)"))
    else if MinPieces(keys) < 3 then Err(ValueError("not enough values to unpack (expected 3)"))
    else if MinPieces(keys) > 3 then Err(ValueError("too many values to unpack (expected 3)"))
    else
      Ok((seq(|keys|, i requires 0 <= i < |keys| => Split(keys[i], '_')[0]),
          seq(|keys|, i requires 0 <= i < |keys| => Split(keys[i], '_')[1])))
  }

  /** The fewest pieces any key splits into. */
  function MinPieces(keys: seq<string>): (m: nat)
    requires |keys| > 0
    ensures forall i :: 0 <= i < |keys| ==> m <= |Split(keys[i], '_')|
    ensures exists i :: 0 <= i < |keys| && m == |Split(keys[i], '_')|
  {
    var n := |Split(keys[0], '_')|;
    if |keys| == 1 then n
    else
      var rest := MinPieces(keys[1..]);
      assert forall i :: 1 <= i < |keys| ==> keys[i] == keys[1..][i - 1];
      if n <= rest then n else rest
  }

  /** Well-formed keys 'region1_region2_year' give back their two regions. */
  lemma KeyRegionsWellFormed(keys: seq<string>, r1s: seq<string>, r2s: seq<string>, years: seq<string>)
    requires |keys| > 0 && |r1s| == |keys| && |r2s| == |keys| && |years| == |keys|
    requires forall i :: 0 <= i < |keys| ==>
               '_' !in r1s[i] && '_' !in r2s[i] && '_' !in years[i] &&
               keys[i] == r1s[i] + "_" + r2s[i] + "_" + years[i]
    ensures KeyRegions(keys) == Ok((r1s, r2s))
  {
    forall i | 0 <= i < |keys|
      ensures Split(keys[i], '_') == [r1s[i], r2s[i], years[i]]
    {
      SplitRegionKey(r1s[i], r2s[i], years[i]);
    }
    var w := MinPieces(keys);
    assert w == 3;
    var r := KeyRegions(keys);
    assert r.Ok?;
    assert r.value.0 == r1s;
    assert r.value.1 == r2s;
  }

  /** Too few pieces, or no key at all, is refused. */
  lemma KeyRegionsRefused()
    ensures KeyRegions(["a_2010"]).Err? && KeyRegions([]).Err?
  {
    SplitAfterHead("a", "2010");
    assert "a" + "_" + "2010" == "a_2010";
    SplitNoSep("2010");
    assert MinPieces(["a_2010"]) == 2;
  }

  lemma {:induction false} SplitNoSep(s: string)
    requires '_' !in s
    ensures Split(s, '_') == [s]
  {
    if s != [] {
      SplitNoSep(s[1..]);
      assert [s[0]] + s[1..] == s;
    }
  }

  /** Splitting at the first separator: a separator-free head, then the rest. */
  lemma {:induction false} SplitAfterHead(a: string, rest: string)
    requires '_' !in a
    ensures Split(a + "_" + rest, '_') == [a] + Split(rest, '_')
  {
    if a != [] {
      SplitAfterHead(a[1..], rest);
      assert (a + "_" + rest)[1..] == a[1..] + "_" + rest;
      assert [a[0]] + a[1..] == a;
    } else {
      assert a + "_" + rest == ['_'] + rest;
    }
  }

  lemma SplitRegionKey(r1: string, r2: string, year: string)
    requires '_' !in r1 && '_' !in r2 && '_' !in year
    ensures Split(r1 + "_" + r2 + "_" + year, '_') == [r1, r2, year]
  {
    SplitAfterHead(r1, r2 + "_" + year);
    assert r1 + "_" + r2 + "_" + year == r1 + "_" + (r2 + "_" + year);
    SplitAfterHead(r2, year);
    SplitNoSep(year);
  }

  // ---------------------------------------------------------------------------
  // Region tables.

  predicate StrictlySorted(s: seq<string>)
  {
    forall i, j :: 0 <= i < j < |s| ==> LexLess(s[i], s[j])
  }

  function InsertSorted(x: string, s: seq<string>): (r: seq<string>)
    requires StrictlySorted(s)
    ensures StrictlySorted(r)
    ensures forall y :: y in r <==> y == x || y in s
  {
    if s == [] then [x]
    else if x == s[0] then s
    else if LexLess(x, s[0]) then
      assert forall j :: 0 < j < |s| ==> LexLess(s[0], s[j]);
      forall j | 0 <= j < |s| ensures LexLess(x, s[j]) {
        if j > 0 { LexLessTransitive(x, s[0], s[j]); }
      }
      [x] + s
    else
      LexLessTotal(x, s[0]);
      var rest := InsertSorted(x, s[1..]);
      assert forall j :: 0 <= j < |rest| ==> rest[j] == x || rest[j] in s[1..];
      [s[0]] + rest
  }

  /** `np.unique`: the distinct values in ascending code-point order. */
  function Unique(s: seq<string>): (r: seq<string>)
    ensures StrictlySorted(r)
    ensures forall y :: y in r <==> y in s
  {
    if s == [] then [] else InsertSorted(s[|s| - 1], Unique(s[..|s| - 1]))
  }

  /** A strictly sorted table has no repeats. */
  lemma StrictlySortedDistinct(s: seq<string>, i: nat, j: nat)
    requires StrictlySorted(s) && i < |s| && j < |s| && i != j
    ensures s[i] != s[j]
  {
    if i < j { LexLessIrreflexive(s[i]); } else { LexLessIrreflexive(s[j]); }
  }

  /** `list(regions).index(region)`: the first position holding it; ValueError if absent. */
  function RegionToLoc(regions: seq<string>, region: string): (r: Result<nat>)
    ensures r.Ok? <==> region in regions
    ensures r.Err? ==> r.error.ValueError?
    ensures r.Ok? ==> r.value < |regions| && regions[r.value] == region
    ensures r.Ok? ==> forall j :: 0 <= j < r.value ==> regions[j] != region
  {
    if regions == [] then Err(ValueError(region + " is not in list"))
    else if regions[0] == region then Ok(0)
    else
      match RegionToLoc(regions[1..], region)
      case Ok(k) => Ok(k + 1)
      case Err(e) => Err(e)
  }

  /** `regions[int(loc)]`: numpy indexing, so a negative loc counts from the end;
      anything else out of range is an IndexError. */
  function LocToRegion(regions: seq<string>, loc: int): (r: Result<string>)
    ensures r.Ok? <==> -|regions| <= loc < |regions|
    ensures r.Err? ==> r.error == IndexError
    ensures 0 <= loc < |regions| ==> r == Ok(regions[loc])
    ensures -|regions| <= loc < 0 ==> r == Ok(regions[|regions| + loc])
  {
    if 0 <= loc < |regions| then Ok(regions[loc])
    else if -|regions| <= loc < 0 then Ok(regions[|regions| + loc])
    else Err(IndexError)
  }

  /** Over a sorted distinct table the two maps are inverse: a region's loc
      leads back to the region, and a loc in range leads back to itself. */
  lemma RegionLocRoundTrip(regions: seq<string>, region: string, loc: nat)
    requires StrictlySorted(regions)
    ensures region in regions ==>
              RegionToLoc(regions, region).Ok? &&
              LocToRegion(regions, RegionToLoc(regions, region).value) == Ok(region)
    ensures loc < |regions| ==>
              LocToRegion(regions, loc).Ok? &&
              RegionToLoc(regions, LocToRegion(regions, loc).value) == Ok(loc)
  {
    if loc < |regions| {
      var r := RegionToLoc(regions, regions[loc]);
      if r.value != loc {
        StrictlySortedDistinct(regions, r.value, loc);
      }
    }
  }

  /** The metadata's loc column: each region replaced by its index in the table. */
  function Locs(column: seq<string>, table: seq<string>): (r: Result<seq<nat>>)
    ensures r.Ok? <==> forall i :: 0 <= i < |column| ==> column[i] in table
    ensures r.Ok? ==> |r.value| == |column|
    ensures r.Ok? ==> forall i :: 0 <= i < |column| ==> r.value[i] < |table| && table[r.value[i]] == column[i]
  {
    if column == [] then Ok([])
    else
      var head :- RegionToLoc(table, column[0]);
      var tail :- Locs(column[1..], table);
      assert forall i :: 1 <= i < |column| ==> column[i] == column[1..][i - 1];
      Ok([head] + tail)
  }

  /** What the constructor derives from the three loaded splits. */
  datatype CropYieldMeta = CropYieldMeta(
    country: string, splitArray: seq<int>, keys: seq<string>, years: seq<int>, labels: seq<real>,
    region1s: seq<string>, region2s: seq<string>, loc1: seq<nat>, loc2: seq<nat>)

  /** The keys, years and yield labels of each split, as loaded. */
  datatype LoadedSplit = LoadedSplit(keys: seq<string>, years: seq<int>, labels: seq<real>)

  /** `pd.DataFrame` accepts its three concatenated columns only when they have
      the same length. */
  predicate ColumnsAgree(train: LoadedSplit, val: LoadedSplit, test: LoadedSplit)
  {
    && |train.keys| + |val.keys| + |test.keys| == |train.years| + |val.years| + |test.years|
    && |train.keys| + |val.keys| + |test.keys| == |train.labels| + |val.labels| + |test.labels|
  }

  /** `initialize_region_locs` and the loc column of one region column: the
      sorted distinct regions, and each row's region replaced by its index. */
  function RegionIndex(column: seq<string>): (r: (seq<string>, seq<nat>))
    ensures StrictlySorted(r.0)
    ensures forall y :: y in r.0 <==> y in column
    ensures |r.1| == |column|
    ensures forall i :: 0 <= i < |column| ==> r.1[i] < |r.0| && r.0[r.1[i]] == column[i]
  {
    var table := Unique(column);
    assert forall i :: 0 <= i < |column| ==> column[i] in table;
    (table, Locs(column, table).value)
  }

  /** The constructor from the scheme check to the loc columns: it fails with
      ValueError exactly when the scheme is refused, the three columns of the
      data frame differ in length, or the keys are refused; then every key's two
      regions get a loc in range that leads back to the region, and the region
      tables hold exactly the regions of the keys. */
  function NewCropYield(splitScheme: string, train: LoadedSplit, val: LoadedSplit, test: LoadedSplit)
    : (r: Result<CropYieldMeta>)
    ensures r.Ok? <==> SchemeCountry(splitScheme).Ok? && ColumnsAgree(train, val, test)
                       && KeyRegions(train.keys + val.keys + test.keys).Ok?
    ensures r.Err? ==> r.error.ValueError?
    ensures r.Ok? ==> r.value.country == SchemeCountry(splitScheme).value
    ensures r.Ok? ==> r.value.keys == train.keys + val.keys + test.keys
    ensures r.Ok? ==> r.value.years == train.years + val.years + test.years
    ensures r.Ok? ==> r.value.labels == train.labels + val.labels + test.labels
    ensures r.Ok? ==> r.value.splitArray == SplitColumn(|train.labels|, |val.labels|, |test.labels|)
    ensures r.Ok? ==> |r.value.splitArray| == |r.value.keys| == |r.value.years| == |r.value.labels|
    ensures r.Ok? ==>
              var m := r.value;
              var regions := KeyRegions(m.keys).value;
              && StrictlySorted(m.region1s) && StrictlySorted(m.region2s)
              && (forall y :: y in m.region1s <==> y in regions.0)
              && (forall y :: y in m.region2s <==> y in regions.1)
              && |m.loc1| == |m.keys| && |m.loc2| == |m.keys|
              && (forall i :: 0 <= i < |m.keys| ==> m.loc1[i] < |m.region1s| && m.region1s[m.loc1[i]] == regions.0[i])
              && (forall i :: 0 <= i < |m.keys| ==> m.loc2[i] < |m.region2s| && m.region2s[m.loc2[i]] == regions.1[i])
  {
    var country :- SchemeCountry(splitScheme);
    if !ColumnsAgree(train, val, test) then
      Err(ValueError("All arrays must be of the same length"))
    else
      var keys := train.keys + val.keys + test.keys;
      var regions :- KeyRegions(keys);
      var (region1s, loc1) := RegionIndex(regions.0);
      var (region2s, loc2) := RegionIndex(regions.1);
      Ok(CropYieldMeta(country, SplitColumn(|train.labels|, |val.labels|, |test.labels|), keys,
                       train.years + val.years + test.years, train.labels + val.labels + test.labels,
                       region1s, region2s, loc1, loc2))
  }

  /** A split whose years are missing is refused by the data frame. */
  lemma NewCropYieldRefusesShortColumns()
    ensures NewCropYield("usa", LoadedSplit(["a_b_2010"], [], [1.0]), LoadedSplit([], [], []),
                         LoadedSplit([], [], [])).Err?
  {
  }

  // ---------------------------------------------------------------------------
  // Metrics.

  function Product(dims: seq<nat>): nat
  {
    if dims == [] then 1 else dims[0] * Product(dims[1..])
  }

  /** `crop_yield_metrics` flattens both arrays and asserts equal shapes: the
      element counts must agree. */
  function FlattenedShapesAgree(trueShape: seq<nat>, predShape: seq<nat>): (r: Result<nat>)
    ensures r.Ok? <==> Product(trueShape) == Product(predShape)
    ensures r.Err? ==> r.error == AssertionError
    ensures r.Ok? ==> r.value == Product(trueShape)
  {
    if Product(trueShape) == Product(predShape) then Ok(Product(trueShape)) else Err(AssertionError)
  }

  /** Shapes that differ but hold as many elements pass; different counts fail. */
  lemma FlattenedShapesExamples()
    ensures FlattenedShapesAgree([2, 3], [3, 2]).Ok? && FlattenedShapesAgree([6], [2, 3]).Ok?
    ensures FlattenedShapesAgree([6], [5]).Err?
  {
    assert Product([2, 3]) == 6 && Product([3, 2]) == 6;
  }
}
