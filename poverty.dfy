/** The poverty-map dataset's bookkeeping: the country-based split into
    in-distribution and out-of-distribution rows, the split-code array built in
    the constructor, the configuration checks, the renaming of splits when no
    OOD validation set is used, the country index map, and the nightlights band
    switched off by `no_nl`. Rows are identified by their position in the
    metadata table; `country[r]` is row `r`'s country code. */
module Poverty {
  import opened Common
  import opened Seqs

  const BAND_ORDER: seq<string> := ["BLUE", "GREEN", "RED", "SWIR1", "SWIR2", "TEMP1", "NIR", "NIGHTLIGHTS"]

  /** The band `no_nl` switches off is the last one, the nightlights band. */
  lemma NightlightsIsLastBand()
    ensures |BAND_ORDER| == 8 && BAND_ORDER[|BAND_ORDER| - 1] == "NIGHTLIGHTS"
    ensures forall i :: 0 <= i < |BAND_ORDER| - 1 ==> BAND_ORDER[i] != "NIGHTLIGHTS"
  {
  }

  // ---------------------------------------------------------------------------
  // Country-based partition.

  predicate AllBelow(idxs: seq<nat>, n: nat) { forall i :: 0 <= i < |idxs| ==> idxs[i] < n }

  function IsOod(country: seq<string>, oodCountries: seq<string>): nat -> bool
  {
    (r: nat) => r < |country| && country[r] in oodCountries
  }

  /** `split_by_countries`: the rows whose country is not in `oodCountries`, then
      the rows whose country is, each in the order of `idxs`. */
  function SplitByCountries(idxs: seq<nat>, oodCountries: seq<string>, country: seq<string>)
    : (r: (seq<nat>, seq<nat>))
    requires AllBelow(idxs, |country|)
    ensures forall i :: 0 <= i < |r.0| ==> r.0[i] in idxs && country[r.0[i]] !in oodCountries
    ensures forall i :: 0 <= i < |r.1| ==> r.1[i] in idxs && country[r.1[i]] in oodCountries
    ensures forall i :: 0 <= i < |idxs| ==> (idxs[i] in r.0 || idxs[i] in r.1)
    ensures AllBelow(r.0, |country|) && AllBelow(r.1, |country|)
  {
    (Reject(idxs, IsOod(country, oodCountries)), Filter(idxs, IsOod(country, oodCountries)))
  }

  /** Both parts keep the order of `idxs` and together they are `idxs`, row for row. */
  lemma SplitByCountriesPartitions(idxs: seq<nat>, oodCountries: seq<string>, country: seq<string>)
    requires AllBelow(idxs, |country|)
    ensures var (id, ood) := SplitByCountries(idxs, oodCountries, country);
      && IsSubseq(id, idxs) && IsSubseq(ood, idxs)
      && multiset(id) + multiset(ood) == multiset(idxs)
  {
    FilterIsSubseq(idxs, IsOod(country, oodCountries));
    FilterRejectPartition(idxs, IsOod(country, oodCountries));
  }

  /** The three row sets the constructor derives from a fold: in-distribution rows,
      rows of the fold's test countries, and rows of its validation countries. */
  datatype Partition = Partition(idxsId: seq<nat>, oodTest: seq<nat>, oodVal: seq<nat>)

  function CountryPartition(country: seq<string>, testCountries: seq<string>, valCountries: seq<string>)
    : (p: Partition)
    ensures AllBelow(p.idxsId, |country|) && AllBelow(p.oodTest, |country|) && AllBelow(p.oodVal, |country|)
    ensures forall i :: 0 <= i < |p.oodTest| ==> country[p.oodTest[i]] in testCountries
    ensures forall i :: 0 <= i < |p.oodVal| ==>
              country[p.oodVal[i]] in valCountries && country[p.oodVal[i]] !in testCountries
    ensures forall i :: 0 <= i < |p.idxsId| ==>
              country[p.idxsId[i]] !in valCountries && country[p.idxsId[i]] !in testCountries
  {
    var (id1, oodTest) := SplitByCountries(Range(|country|), testCountries, country);
    var (id2, oodVal) := SplitByCountries(id1, valCountries, country);
    Partition(id2, oodTest, oodVal)
  }

  /** The partition is exact: every row of a test country is an OOD test row,
      every row of a validation country outside the test countries an OOD
      validation row, and every other row an in-distribution row. */
  lemma CountryPartitionExact(country: seq<string>, testCountries: seq<string>, valCountries: seq<string>, r: nat)
    requires r < |country|
    ensures var p := CountryPartition(country, testCountries, valCountries);
      && (r in p.oodTest <==> country[r] in testCountries)
      && (r in p.oodVal <==> country[r] in valCountries && country[r] !in testCountries)
      && (r in p.idxsId <==> country[r] !in testCountries && country[r] !in valCountries)
  {
    var all := Range(|country|);
    assert all[r] == r;
    var (id1, oodTest) := SplitByCountries(all, testCountries, country);
    assert r in id1 || r in oodTest;
    if country[r] !in testCountries {
      assert r !in oodTest;
      var j :| 0 <= j < |id1| && id1[j] == r;
      var (id2, oodVal) := SplitByCountries(id1, valCountries, country);
      assert id1[j] in id2 || id1[j] in oodVal;
    }
  }

  // ---------------------------------------------------------------------------
  // Configuration.

  const FOLDS: set<string> := {"A", "B", "C", "D", "E"}

  /** The scheme is checked first ('official' is renamed 'countries', the only
      scheme accepted), then the fold. The normalised scheme is returned. */
  function ValidatePovertyConfig(splitScheme: string, fold: string): (r: Result<string>)
    ensures r.Ok? <==> (splitScheme == "official" || splitScheme == "countries") && fold in FOLDS
    ensures r.Ok? ==> r.value == "countries"
    ensures splitScheme != "official" && splitScheme != "countries" ==>
              r == Err(ValueError("Split scheme not recognized"))
    ensures (splitScheme == "official" || splitScheme == "countries") && fold !in FOLDS ==>
              r == Err(ValueError("Fold must be A, B, C, D, or E"))
  {
    var scheme := if splitScheme == "official" then "countries" else splitScheme;
    if scheme != "countries" then Err(ValueError("Split scheme not recognized"))
    else if fold !in FOLDS then Err(ValueError("Fold must be A, B, C, D, or E"))
    else Ok(scheme)
  }

  // ---------------------------------------------------------------------------
  // The split-code array.

  datatype PovertySplit = Train | IdVal | IdTest | OodVal | OodTest

  /** `_split_dict` as built first: train 0, id_val 1, id_test 2, val 3, test 4. */
  function Code(s: PovertySplit): (c: int)
    ensures 0 <= c <= 4
  {
    match s
    case Train => 0
    case IdVal => 1
    case IdTest => 2
    case OodVal => 3
    case OodTest => 4
  }

  /** The order of the constructor's loop; a later split overwrites an earlier one. */
  const SPLIT_LOOP: seq<PovertySplit> := [OodTest, OodVal, IdTest, IdVal, Train]

  const NUM_EVAL: nat := 2000

  /** `subsample_idxs(idxs, num, take_rest, seed)`, an unseen collaborator. */
  type Subsampler = (seq<nat>, nat, bool, nat) -> seq<nat>

  /** What the constructor relies on: the subsample is drawn from its input. */
  ghost predicate SubsamplesFrom(sub: Subsampler)
  {
    forall idxs, num, takeRest, seed, i ::
      0 <= i < |sub(idxs, num, takeRest, seed)| ==> sub(idxs, num, takeRest, seed)[i] in idxs
  }

  /** Everything the split loop reads: the number of rows, the partition, the
      oracle flag, the seed `ord(fold)` and the subsampler. */
  datatype SplitSetup = SplitSetup(n: nat, p: Partition, oracle: bool, seed: nat, sub: Subsampler)

  ghost predicate ValidSetup(st: SplitSetup)
  {
    AllBelow(st.p.idxsId, st.n) && AllBelow(st.p.oodTest, st.n) && AllBelow(st.p.oodVal, st.n) &&
    SubsamplesFrom(st.sub)
  }

  /** The 2000 evaluation rows: the head of an oracle subsample of all rows, or a
      subsample of the in-distribution rows. */
  function EvalIdxs(st: SplitSetup): seq<nat>
  {
    if st.oracle then Take(st.sub(Range(st.n), |st.p.idxsId|, false, st.seed), NUM_EVAL)
    else st.sub(st.p.idxsId, NUM_EVAL, false, st.seed)
  }

  /** The rows each split receives. */
  function SplitIdxs(s: PovertySplit, st: SplitSetup): seq<nat>
  {
    match s
    case OodTest => st.p.oodTest
    case OodVal => st.p.oodVal
    case Train =>
      if st.oracle then Drop(st.sub(Range(st.n), |st.p.idxsId|, false, st.seed), NUM_EVAL)
      else st.sub(st.p.idxsId, NUM_EVAL, true, st.seed)
    case IdVal => Take(EvalIdxs(st), NUM_EVAL / 2)
    case IdTest => Drop(EvalIdxs(st), NUM_EVAL / 2)
  }

  /** ID validation and ID test are the two halves of the evaluation rows:
      complementary slices, at most 1000 rows in the first. */
  lemma IdValIdTestSlices(st: SplitSetup)
    ensures SplitIdxs(IdVal, st) + SplitIdxs(IdTest, st) == EvalIdxs(st)
    ensures |SplitIdxs(IdVal, st)| <= 1000
  {
    TakeDropSplit(EvalIdxs(st), NUM_EVAL / 2);
  }

  /** In the non-oracle setting, train, ID validation and ID test rows are all
      in-distribution rows. */
  lemma InDistributionSplitsFromId(st: SplitSetup, s: PovertySplit)
    requires ValidSetup(st) && !st.oracle
    requires s == Train || s == IdVal || s == IdTest
    ensures forall i :: 0 <= i < |SplitIdxs(s, st)| ==> SplitIdxs(s, st)[i] in st.p.idxsId
  {
    var e := EvalIdxs(st);
    var t := SplitIdxs(s, st);
    forall i | 0 <= i < |t|
      ensures t[i] in st.p.idxsId
    {
      if s == IdVal {
        assert t[i] == e[i];
      } else if s == IdTest {
        assert t[i] == e[NUM_EVAL / 2 + i];
      }
    }
  }

  lemma SplitIdxsInRange(st: SplitSetup, s: PovertySplit)
    requires ValidSetup(st)
    ensures AllBelow(SplitIdxs(s, st), st.n)
  {
    var all := st.sub(Range(st.n), |st.p.idxsId|, false, st.seed);
    var e := EvalIdxs(st);
    assert AllBelow(all, st.n) by {
      forall i | 0 <= i < |all| ensures all[i] < st.n {
        assert all[i] in Range(st.n);
      }
    }
    assert AllBelow(e, st.n) by {
      forall i | 0 <= i < |e| ensures e[i] < st.n {
        if !st.oracle {
          assert e[i] in st.p.idxsId;
        }
      }
    }
    if s == Train && !st.oracle {
      var t := SplitIdxs(s, st);
      forall i | 0 <= i < |t| ensures t[i] < st.n {
        assert t[i] in st.p.idxsId;
      }
    }
  }

  /** Every split names only rows of the table. */
  ghost predicate SplitsInRange(st: SplitSetup)
  {
    forall s: PovertySplit :: AllBelow(SplitIdxs(s, st), st.n)
  }

  /** The setup the constructor builds from the metadata's countries and a fold. */
  function PovertySetup(country: seq<string>, testCountries: seq<string>, valCountries: seq<string>,
                        oracle: bool, seed: nat, sub: Subsampler): (st: SplitSetup)
    requires SubsamplesFrom(sub)
    ensures ValidSetup(st) && SplitsInRange(st)
    ensures st.n == |country| && st.p == CountryPartition(country, testCountries, valCountries)
    ensures st.oracle == oracle && st.seed == seed && st.sub == sub
  {
    var st := SplitSetup(|country|, CountryPartition(country, testCountries, valCountries), oracle, seed, sub);
    SetupInRange(st);
    st
  }

  lemma SetupInRange(st: SplitSetup)
    requires ValidSetup(st)
    ensures SplitsInRange(st)
  {
    forall s: PovertySplit
      ensures AllBelow(SplitIdxs(s, st), st.n)
    {
      SplitIdxsInRange(st, s);
    }
  }

  /** The array after the first `k` splits of the loop. */
  function ApplySplits(st: SplitSetup, k: nat): (a: seq<int>)
    requires SplitsInRange(st) && k <= |SPLIT_LOOP|
    ensures |a| == st.n
  {
    if k == 0 then seq(st.n, _ => -1)
    else
      assert AllBelow(SplitIdxs(SPLIT_LOOP[k - 1], st), st.n);
      Scatter(ApplySplits(st, k - 1), SplitIdxs(SPLIT_LOOP[k - 1], st), Code(SPLIT_LOOP[k - 1]))
  }

  function SplitArraySpec(st: SplitSetup): (a: seq<int>)
    requires SplitsInRange(st)
    ensures |a| == st.n
  {
    ApplySplits(st, |SPLIT_LOOP|)
  }

  /** Each row's code: the last split of the loop that names it wins, so train
      beats ID validation, which beats ID test, then OOD validation, then OOD
      test; a row no split names keeps -1. */
  lemma SplitArrayAt(st: SplitSetup, r: nat)
    requires SplitsInRange(st) && r < st.n
    ensures SplitArraySpec(st)[r] ==
              if r in SplitIdxs(Train, st) then 0
              else if r in SplitIdxs(IdVal, st) then 1
              else if r in SplitIdxs(IdTest, st) then 2
              else if r in SplitIdxs(OodVal, st) then 3
              else if r in SplitIdxs(OodTest, st) then 4
              else -1
  {
    assert SPLIT_LOOP[0] == OodTest && SPLIT_LOOP[1] == OodVal && SPLIT_LOOP[2] == IdTest;
    assert SPLIT_LOOP[3] == IdVal && SPLIT_LOOP[4] == Train;
    var a0 := ApplySplits(st, 0)[r];
    assert a0 == -1;
    ApplyStep(st, 1, r);
    var a1 := ApplySplits(st, 1)[r];
    assert a1 == if r in SplitIdxs(OodTest, st) then 4 else -1;
    ApplyStep(st, 2, r);
    var a2 := ApplySplits(st, 2)[r];
    assert a2 == if r in SplitIdxs(OodVal, st) then 3 else a1;
    ApplyStep(st, 3, r);
    var a3 := ApplySplits(st, 3)[r];
    assert a3 == if r in SplitIdxs(IdTest, st) then 2 else a2;
    ApplyStep(st, 4, r);
    var a4 := ApplySplits(st, 4)[r];
    assert a4 == if r in SplitIdxs(IdVal, st) then 1 else a3;
    ApplyStep(st, 5, r);
    assert SplitArraySpec(st)[r] == if r in SplitIdxs(Train, st) then 0 else a4;
  }

  lemma ApplyStep(st: SplitSetup, k: nat, r: nat)
    requires SplitsInRange(st) && 1 <= k <= |SPLIT_LOOP| && r < st.n
    ensures ApplySplits(st, k)[r] ==
              if r in SplitIdxs(SPLIT_LOOP[k - 1], st) then Code(SPLIT_LOOP[k - 1])
              else ApplySplits(st, k - 1)[r]
  {
    assert AllBelow(SplitIdxs(SPLIT_LOOP[k - 1], st), st.n);
    ScatterAt(ApplySplits(st, k - 1), SplitIdxs(SPLIT_LOOP[k - 1], st), Code(SPLIT_LOOP[k - 1]), r);
  }

  /** Every code is one of -1, 0, 1, 2, 3, 4. */
  lemma SplitArrayCodes(st: SplitSetup, r: nat)
    requires SplitsInRange(st) && r < st.n
    ensures -1 <= SplitArraySpec(st)[r] <= 4
  {
    SplitArrayAt(st, r);
  }

  /** Without the oracle, the in-distribution writes never touch an OOD row: a
      row of a test country gets code 4, a row of a validation country outside
      the test countries code 3, and any other row a code in -1..2. */
  lemma OodRowsKeepTheirCodes(country: seq<string>, testCountries: seq<string>, valCountries: seq<string>,
                              seed: nat, sub: Subsampler, r: nat)
    requires SubsamplesFrom(sub) && r < |country|
    ensures var st := PovertySetup(country, testCountries, valCountries, false, seed, sub);
      && (country[r] in testCountries ==> SplitArraySpec(st)[r] == 4)
      && (country[r] in valCountries && country[r] !in testCountries ==> SplitArraySpec(st)[r] == 3)
      && (country[r] !in testCountries && country[r] !in valCountries ==> -1 <= SplitArraySpec(st)[r] <= 2)
  {
    var st := PovertySetup(country, testCountries, valCountries, false, seed, sub);
    CountryPartitionExact(country, testCountries, valCountries, r);
    if r in st.p.oodTest || r in st.p.oodVal {
      OodRowCodes(st, country, testCountries, valCountries, r);
    } else {
      IdRowCodes(st, r);
    }
  }

  /** A row outside both OOD splits gets an in-distribution code or keeps -1. */
  lemma IdRowCodes(st: SplitSetup, r: nat)
    requires SplitsInRange(st) && r < st.n
    requires r !in st.p.oodTest && r !in st.p.oodVal
    ensures -1 <= SplitArraySpec(st)[r] <= 2
  {
    SplitArrayAt(st, r);
  }

  /** An OOD row, named by no in-distribution split, keeps its OOD code. */
  lemma OodRowCodes(st: SplitSetup, country: seq<string>, testCountries: seq<string>,
                    valCountries: seq<string>, r: nat)
    requires st.p == CountryPartition(country, testCountries, valCountries)
    requires ValidSetup(st) && SplitsInRange(st) && !st.oracle && r < |country|
    requires r in st.p.oodTest || r in st.p.oodVal
    ensures r in st.p.oodTest ==> SplitArraySpec(st)[r] == 4
    ensures r in st.p.oodVal ==> SplitArraySpec(st)[r] == 3
  {
    OodRowOutsideIdSplits(st, country, testCountries, valCountries, r, Train);
    OodRowOutsideIdSplits(st, country, testCountries, valCountries, r, IdVal);
    OodRowOutsideIdSplits(st, country, testCountries, valCountries, r, IdTest);
    OodTestOutsideOodVal(st, country, testCountries, valCountries, r);
    OnlyOodCodes(st, r);
  }

  /** A row named by no in-distribution split gets the code of its OOD split. */
  lemma OnlyOodCodes(st: SplitSetup, r: nat)
    requires SplitsInRange(st) && r < st.n
    requires r !in SplitIdxs(Train, st) && r !in SplitIdxs(IdVal, st) && r !in SplitIdxs(IdTest, st)
    ensures r in st.p.oodVal ==> SplitArraySpec(st)[r] == 3
    ensures r in st.p.oodTest && r !in st.p.oodVal ==> SplitArraySpec(st)[r] == 4
  {
    SplitArrayAt(st, r);
  }

  /** The fold's test and validation countries give disjoint row sets. */
  lemma OodTestOutsideOodVal(st: SplitSetup, country: seq<string>, testCountries: seq<string>,
                             valCountries: seq<string>, r: nat)
    requires st.p == CountryPartition(country, testCountries, valCountries) && r < |country|
    ensures r in st.p.oodTest ==> r !in st.p.oodVal
  {
    if r in st.p.oodVal {
      assert country[r] !in testCountries;
    }
  }

  /** An OOD row is in no in-distribution split when the oracle is off. */
  lemma OodRowOutsideIdSplits(st: SplitSetup, country: seq<string>, testCountries: seq<string>,
                              valCountries: seq<string>, r: nat, s: PovertySplit)
    requires st.p == CountryPartition(country, testCountries, valCountries)
    requires ValidSetup(st) && !st.oracle && r < |country|
    requires s == Train || s == IdVal || s == IdTest
    ensures r in st.p.oodTest || r in st.p.oodVal ==> r !in SplitIdxs(s, st)
  {
    InDistributionSplitsFromId(st, s);
    if r in st.p.idxsId {
      assert country[r] !in testCountries && country[r] !in valCountries;
    }
  }

  /** numpy's `a[idxs] = v`, in place. */
  method ScatterInto(a: array<int>, idxs: seq<nat>, v: int)
    requires AllBelow(idxs, a.Length)
    modifies a
    ensures a[..] == Scatter(old(a[..]), idxs, v)
  {
    ghost var before := a[..];
    for j := 0 to |idxs|
      invariant a[..] == Scatter(before, idxs[..j], v)
    {
      ScatterSnoc(before, idxs[..j], idxs[j], v);
      assert idxs[..j + 1] == idxs[..j] + [idxs[j]];
      a[idxs[j]] := v;
    }
    assert idxs[..|idxs|] == idxs;
  }

  /** `ord(fold)`, the subsampling seed. */
  function Seed(fold: string): nat
    requires fold in FOLDS
  {
    fold[0] as nat
  }

  /** The constructor's split loop: an array of -1, then for each split in turn
      its rows receive its code. `fold` has passed `ValidatePovertyConfig`. */
  method BuildSplitArray(country: seq<string>, testCountries: seq<string>, valCountries: seq<string>,
                         fold: string, oracle: bool, sub: Subsampler) returns (splitArray: seq<int>)
    requires fold in FOLDS && SubsamplesFrom(sub)
    ensures splitArray == SplitArraySpec(PovertySetup(country, testCountries, valCountries, oracle, Seed(fold), sub))
  {
    var st := PovertySetup(country, testCountries, valCountries, oracle, Seed(fold), sub);
    splitArray := FillSplitArray(st);
  }

  method FillSplitArray(st: SplitSetup) returns (splitArray: seq<int>)
    requires SplitsInRange(st)
    ensures splitArray == SplitArraySpec(st)
  {
    var a := new int[st.n](_ => -1);
    assert a[..] == ApplySplits(st, 0);
    for k := 0 to |SPLIT_LOOP|
      invariant a[..] == ApplySplits(st, k)
    {
      var split := SPLIT_LOOP[k];
      var idxs := SplitIdxs(split, st);
      assert AllBelow(idxs, a.Length);
      ScatterInto(a, idxs, Code(split));
    }
    splitArray := a[..];
  }

  // ---------------------------------------------------------------------------
  // Split names.

  /** `_split_dict`; without an OOD validation set, 'id_val' is called 'val'
      and 'val' is called 'ood_val'. */
  function SplitDict(useOodVal: bool): map<string, int>
  {
    if useOodVal then map["train" := 0, "id_val" := 1, "id_test" := 2, "val" := 3, "test" := 4]
    else map["train" := 0, "val" := 1, "id_test" := 2, "ood_val" := 3, "test" := 4]
  }

  /** Both dictionaries use exactly the codes 0 to 4. */
  lemma SplitDictCodes(useOodVal: bool)
    ensures SplitDict(useOodVal).Values == {0, 1, 2, 3, 4}
  {
    var d := SplitDict(useOodVal);
    var v := if useOodVal then "id_val" else "val";
    var o := if useOodVal then "val" else "ood_val";
    assert d["train"] == 0 && d[v] == 1 && d["id_test"] == 2 && d[o] == 3 && d["test"] == 4;
    assert d.Keys == {"train", v, "id_test", o, "test"};
  }

  /** `_split_names`. */
  function SplitNames(useOodVal: bool): map<string, string>
  {
    if useOodVal then map["train" := "Train", "id_val" := "ID Val", "id_test" := "ID Test", "val" := "OOD Val", "test" := "OOD Test"]
    else map["train" := "Train", "val" := "ID Val", "id_test" := "ID Test", "ood_val" := "OOD Val", "test" := "OOD Test"]
  }

  /** The key each split is known by when there is no OOD validation set. */
  function RenamedKey(k: string): string
  {
    if k == "id_val" then "val" else if k == "val" then "ood_val" else k
  }

  /** Turning off the OOD validation set only renames: each split keeps its
      code and its display name under its new key, and nothing else changes. */
  lemma NoOodValOnlyRenames()
    ensures forall k :: k in SplitDict(true) ==>
              RenamedKey(k) in SplitDict(false) && SplitDict(false)[RenamedKey(k)] == SplitDict(true)[k]
    ensures forall k :: k in SplitNames(true) ==>
              RenamedKey(k) in SplitNames(false) && SplitNames(false)[RenamedKey(k)] == SplitNames(true)[k]
    ensures SplitDict(false).Keys == set k | k in SplitDict(true) :: RenamedKey(k)
    ensures SplitNames(false).Keys == SplitDict(false).Keys
  {
    RenamedKeys();
    RenamedCodes();
    RenamedNames();
  }

  lemma RenamedKeys()
    ensures SplitDict(true).Keys == {"train", "id_val", "id_test", "val", "test"}
    ensures SplitDict(false).Keys == {"train", "val", "id_test", "ood_val", "test"}
    ensures SplitNames(true).Keys == SplitDict(true).Keys && SplitNames(false).Keys == SplitDict(false).Keys
    ensures RenamedKey("train") == "train" && RenamedKey("id_val") == "val" && RenamedKey("id_test") == "id_test"
    ensures RenamedKey("val") == "ood_val" && RenamedKey("test") == "test"
    ensures SplitDict(false).Keys == set k | k in SplitDict(true) :: RenamedKey(k)
  {
  }

  lemma RenamedCodes()
    ensures forall k :: k in SplitDict(true) ==>
              RenamedKey(k) in SplitDict(false) && SplitDict(false)[RenamedKey(k)] == SplitDict(true)[k]
  {
    RenamedKeys();
  }

  lemma RenamedNames()
    ensures forall k :: k in SplitNames(true) ==>
              RenamedKey(k) in SplitNames(false) && SplitNames(false)[RenamedKey(k)] == SplitNames(true)[k]
  {
    RenamedKeys();
  }

  // ---------------------------------------------------------------------------
  // Country index map.

  /** `{country: i for i, country in enumerate(countries)}`: a repeated name
      keeps its last position. */
  function CountryToIdx(countries: seq<string>): (m: map<string, nat>)
    ensures forall i :: 0 <= i < |countries| ==> countries[i] in m
    ensures forall c :: c in m ==> m[c] < |countries| && countries[m[c]] == c
    ensures forall c :: c in m ==> forall j :: m[c] < j < |countries| ==> countries[j] != c
  {
    LastPositionsSpec(countries);
    LastPositions(countries)
  }

  /** With distinct names, each name maps to its position. */
  lemma CountryToIdxPositions(countries: seq<string>, i: nat)
    requires forall a, b :: 0 <= a < b < |countries| ==> countries[a] != countries[b]
    requires i < |countries|
    ensures CountryToIdx(countries)[countries[i]] == i
  {
  }

  /** Each row's country name replaced by its index; a name missing from the
      list fails with KeyError. */
  function EncodeCountries(rows: seq<string>, countries: seq<string>): (r: Result<seq<nat>>)
    ensures r.Ok? <==> forall i :: 0 <= i < |rows| ==> rows[i] in countries
    ensures r.Err? ==> r.error == KeyError
    ensures r.Ok? ==>
              (|r.value| == |rows| &&
               forall i :: 0 <= i < |rows| ==> r.value[i] < |countries| && countries[r.value[i]] == rows[i])
  {
    var m := CountryToIdx(countries);
    if forall i :: 0 <= i < |rows| ==> rows[i] in m then
      Ok(seq(|rows|, i requires 0 <= i < |rows| => m[rows[i]]))
    else
      Err(KeyError)
  }

  // ---------------------------------------------------------------------------
  // Input image.

  /** `get_input`'s `img[-1] = 0` under `no_nl`: the last band (nightlights) is
      zeroed in place; the image is band-first. An image without bands has no
      last band and fails with IndexError. */
  method GetInput(img: array<seq<real>>, noNl: bool) returns (r: Result<()>)
    modifies img
    ensures r.Err? <==> noNl && img.Length == 0
    ensures r.Err? ==> r.error == IndexError
    ensures !noNl || r.Err? ==> img[..] == old(img[..])
    ensures noNl && r.Ok? ==>
              img[..] == old(img[..])[img.Length - 1 := seq(|old(img[img.Length - 1])|, _ => 0.0)]
  {
    if noNl {
      if img.Length == 0 {
        return Err(IndexError);
      }
      var last := img.Length - 1;
      img[last] := seq(|img[last]|, _ => 0.0);
    }
    return Ok(());
  }
}
