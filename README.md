# SustainBench core, modelled in Dafny

This project models the data-preparation core of SustainBench, a benchmark of
sustainable-development datasets. It covers two parts.

The Earth Engine export helpers used for the DHS/LSMS poverty surveys:
- the survey-year date window;
- the DMSP/VIIRS nightlights compositor and its calibration table;
- Landsat surface-reflectance QA masking and rescaling;
- the merge of the Landsat 5/7/8 collections sorted by acquisition time;
- `df_to_fc`, `tfexporter` and the `wait_on_tasks` polling loop.

The dataset classes:
- poverty: the country-based OOD partition, the split array, the split
  dictionaries, country encoding and `get_input`'s nightlights zeroing;
- crop yield: the scheme, split loading, region/location tables and the
  flattened-shape check;
- African crop-type mapping: the scheme, band tables, six-digit location ids,
  date parsing and zero padding;
- Kenya crop types: the label table, the fold column, label replacement and the
  field-id lookup;
- crop delineation: the split array with numpy negative indices, mask paths and
  prediction binarisation;
- `get_dataset`: the dispatch from a dataset name and version to a class.

Earth Engine images are modelled one pixel at a time. A `Sample` is a value and
its mask bit; a `Scene` is a sequence of pixels with its properties and its
`system:time_start`. Data frames are sequences of rows or columns. Python
exceptions are the `Err` cases of `Common.Result`, named after the exception
type. Collaborators outside the core become function parameters: the
`subsample_idxs` random subsampler and the Earth Engine task status.

Files:
- `common.dfy`: the error type, Option and Result.
- `seqs.dfy` and `strings.dfy`: shared sequence and string helpers (filter,
  scatter, decimal formatting and parsing, split/join, lower-casing,
  lexicographic order, path joining).
- One file per component:
  - `survey_dates.dfy`, `nightlights.dfy`, `landsat.dfy`, `export.dfy` and
    `task_polling.dfy` for the Earth Engine helpers;
  - `poverty.dfy`, `crop_yield.dfy`, `croptype_mapping.dfy`,
    `croptype_kenya.dfy`, `crop_segmentation.dfy` and `get_dataset.dfy` for the
    dataset classes.

Where the documentation and the code disagree, the model follows the code:
- The crop-type mapping class documents the scheme `'south-sudan'`, but the code
  accepts only `'southsudan'` (`CropTypeMapping.DocumentedSchemeRefused`).
- The poverty class accepts both `'official'` and `'countries'` as its scheme.
- The poverty class documents its input as 224 x 224 x 8, but `img[-1] = 0`
  under `no_nl` zeroes the last entry of the first axis. The model
  (`Poverty.GetInput`) takes images band-first, the layout in which that
  statement zeroes the nightlights band. On a band-last image it would zero the
  last pixel row instead.
- Crop-yield key splitting uses `zip(*...)`, which truncates to the shortest
  list of pieces. It therefore succeeds exactly when there is at least one key
  and the fewest pieces any key has is three (`CropYield.KeyRegions`).

## Model

| member | source | states |
|---|---|---|
| SurveyDates.SurveyYearToRange | dataset_preprocessing/dhs_lsms/ee_utils.py:43-66 | fails with ValueError exactly for years outside 1996..2019; otherwise two 10-character dates ending in -01-01 and -12-31 |
| SurveyDates.SurveyWindowYears | dataset_preprocessing/dhs_lsms/ee_utils.py:62-66 | the year fields of the window read back as year-1 and year+1 |
| Nightlights.SelectFrom | dataset_preprocessing/dhs_lsms/ee_utils.py:204-206 | the record the for-break loop stops at: no earlier record covers the year, and it covers the year unless it is the last record |
| Nightlights.SelectFirstCovering | dataset_preprocessing/dhs_lsms/ee_utils.py:204-206 | whenever some record covers the year, the selected record covers it and comes no later than it |
| Nightlights.SelectDmsp | dataset_preprocessing/dhs_lsms/ee_utils.py:204-206 | the loop returns the first covering record, which covers every DMSP-era year |
| Nightlights.DmspTableContiguous | dataset_preprocessing/dhs_lsms/ee_utils.py:125-142 | the eight ranges start at 1996, end at 2011 and each begins the year after the previous ends |
| Nightlights.DmspTableCoversEra | dataset_preprocessing/dhs_lsms/ee_utils.py:125-142 | every year of 1996..2011 is covered by exactly one record |
| Nightlights.OnlyReferenceUncalibrated | dataset_preprocessing/dhs_lsms/ee_utils.py:125-142 | only the F16 2005-2006 reference composite has no slope and bias |
| Nightlights.CompositeNl | dataset_preprocessing/dhs_lsms/ee_utils.py:202-219 | DMSP with the first covering record's calibration for 1996..2011, VIIRS over the survey window otherwise, ValueError outside 1996..2019 |
| Nightlights.NightlightsValue | dataset_preprocessing/dhs_lsms/ee_utils.py:209-221 | the output lies in [0, 1e9]; uncalibrated values in range pass unchanged; calibrated ones are bias + slope * x clamped |
| Nightlights.CompositeExamples | dataset_preprocessing/dhs_lsms/ee_utils.py:125-222 | 2003 uses F14-F15 with bias 3.736 and slope 0.797, 2006 the uncalibrated F16, 2015 VIIRS over 2014-2016; 1995 and 2020 fail |
| Landsat.QaClearIsBits3To5Zero | dataset_preprocessing/dhs_lsms/ee_utils.py:103-105 | a QA value is clear exactly when bits 3, 4 and 5 are all zero |
| Landsat.QaLowBitsIgnored | dataset_preprocessing/dhs_lsms/ee_utils.py:100-106 | bits 0-2 do not affect clearness |
| Landsat.QaExamples | dataset_preprocessing/dhs_lsms/ee_utils.py:103-105 | QA 4 is clear and QA 40 (cloud shadow and cloud) is not |
| Landsat.MaskQaClear | dataset_preprocessing/dhs_lsms/ee_utils.py:107-112 | values are kept; every band stays valid exactly when it was valid, the QA sample is valid and clear |
| Landsat.MaskQaClearScene | dataset_preprocessing/dhs_lsms/ee_utils.py:99-112 | the mask applied to every pixel; properties and time start unchanged |
| Landsat.MaskQaClearNarrows | dataset_preprocessing/dhs_lsms/ee_utils.py:107-112 | masking only ever removes valid samples |
| Landsat.MaskQaClearIdempotent | dataset_preprocessing/dhs_lsms/ee_utils.py:107-112 | masking twice is masking once |
| Landsat.BandTablesAligned | dataset_preprocessing/dhs_lsms/ee_utils.py:396-401 | three distinct 8-name tables, with the thermal band B6 (L5/7) and B10 (L8) both renamed TEMP1 |
| Landsat.SelectRename | dataset_preprocessing/dhs_lsms/ee_utils.py:403-417 | the renamed pixel has exactly the new names, each holding its original band's sample |
| Landsat.RenamedBandsCanonical | dataset_preprocessing/dhs_lsms/ee_utils.py:396-417 | L5/7 and L8 pixels rename to the same band set, with TEMP1 from B6 and from B10 respectively |
| Landsat.RescaleOptical | dataset_preprocessing/dhs_lsms/ee_utils.py:477-479 | negative values are masked, values above 10000 clamp to 1.0, the rest are divided by 10000 |
| Landsat.RescaleThermal | dataset_preprocessing/dhs_lsms/ee_utils.py:480 | the thermal value is divided by 10, its mask unchanged |
| Landsat.RescalePixel | dataset_preprocessing/dhs_lsms/ee_utils.py:462-482 | six rescaled optical bands, the rescaled thermal band and the untouched QA band |
| Landsat.RescaleL8 | dataset_preprocessing/dhs_lsms/ee_utils.py:462-485 | every pixel rescaled, properties and time start copied |
| Landsat.RescaleL57 | dataset_preprocessing/dhs_lsms/ee_utils.py:518-541 | every pixel rescaled, properties and time start copied |
| Landsat.RescaleL8EqualsL57 | dataset_preprocessing/dhs_lsms/ee_utils.py:462-541 | the two rescalers compute the same image |
| Landsat.RescaledPixelRanges | dataset_preprocessing/dhs_lsms/ee_utils.py:477-479 | optical reflectance lies in [0, 1] |
| Landsat.SelectRenameScene | dataset_preprocessing/dhs_lsms/ee_utils.py:403-417 | pixel i is pixel i of the scene with its bands selected and renamed; pixel count, properties and time start kept |
| Landsat.InsertByTime | dataset_preprocessing/dhs_lsms/ee_utils.py:418 | the scene is added once: the result is a permutation of the input plus the scene |
| Landsat.InsertByTimeSorted | dataset_preprocessing/dhs_lsms/ee_utils.py:418 | inserting into a time-sorted collection keeps it sorted |
| Landsat.SortByTime | dataset_preprocessing/dhs_lsms/ee_utils.py:418 | `sort('system:time_start')`: sorted by time and a permutation of the input |
| Landsat.PrepareL8 | dataset_preprocessing/dhs_lsms/ee_utils.py:403-407 | each L8 scene selected, renamed and rescaled |
| Landsat.PrepareL57 | dataset_preprocessing/dhs_lsms/ee_utils.py:408-417 | each L5/L7 scene selected, renamed and rescaled |
| Landsat.NewLandsatSR | dataset_preprocessing/dhs_lsms/ee_utils.py:383-418 | l8 is the L8 scenes and l7, l5 the L7, L5 scenes each renamed and rescaled; the merged collection is time-sorted and a permutation of l5 + l7 + l8; each collection keeps its scenes' times |
| Export.FeatureOf | dataset_preprocessing/dhs_lsms/ee_utils.py:31-38 | the point is (lon, lat) taken from the row, and the properties are the whole row |
| Export.DfToFc | dataset_preprocessing/dhs_lsms/ee_utils.py:12-40 | KeyError exactly when there are rows and a coordinate column is missing; otherwise one feature per row, in order |
| Export.RemoveAll | dataset_preprocessing/dhs_lsms/ee_utils.py:250-252 | a subsequence of the names with no dropped name left, keeping every occurrence of every other name |
| Export.EffectiveSelectors | dataset_preprocessing/dhs_lsms/ee_utils.py:248-252 | selectors unchanged without drop-selectors; otherwise the given selectors, or the first feature's properties, minus the dropped names, every other name kept as often as it occurs and in order |
| Export.Tfexporter | dataset_preprocessing/dhs_lsms/ee_utils.py:248-276 | a TFRecord task to the bucket or to Drive with the effective selectors; ValueError for any other target |
| Export.RemoveAllNothing | dataset_preprocessing/dhs_lsms/ee_utils.py:250-252 | dropping names that are absent changes nothing |
| Export.RemoveAllIdempotent | dataset_preprocessing/dhs_lsms/ee_utils.py:250-252 | dropping the same names twice is dropping them once |
| TaskPolling.ElapsedMinutes | dataset_preprocessing/dhs_lsms/ee_utils.py:373-374 | the elapsed time in whole minutes, truncated toward zero |
| TaskPolling.ElapsedTruncatesTowardZero | dataset_preprocessing/dhs_lsms/ee_utils.py:373-374 | -1 ms is 0 minutes, -60000 ms is -1, 59999 ms is 0 and 60000 ms is 1 |
| TaskPolling.ReportOf | dataset_preprocessing/dhs_lsms/ee_utils.py:366-376 | a finished task's report: its state, its error message exactly when it failed, and its elapsed minutes |
| TaskPolling.PollRound | dataset_preprocessing/dhs_lsms/ee_utils.py:362-378 | unfinished tasks stay in order, finished ones are reported in order, and together they are the round's tasks |
| TaskPolling.RoundPartitions | dataset_preprocessing/dhs_lsms/ee_utils.py:362-378 | reported and remaining tasks partition the round's tasks, each a subsequence of it |
| TaskPolling.WaitOnTasks | dataset_preprocessing/dhs_lsms/ee_utils.py:355-380 | stops with nothing left or after the round bound; reported plus remaining are the tasks, every report is of a finished task and is the report of its task's status in one of the rounds run |
| TaskPolling.ReportedOnce | dataset_preprocessing/dhs_lsms/ee_utils.py:355-380 | over distinct tasks each is reported at most once, and all are reported when none remain |
| Poverty.NightlightsIsLastBand | sustainbench/datasets/poverty_dataset.py:15 | NIGHTLIGHTS is the eighth and last band and appears nowhere else |
| Poverty.SplitByCountries | sustainbench/datasets/poverty_dataset.py:59-62 | the first part holds exactly the indices outside the listed countries, the second those inside |
| Poverty.SplitByCountriesPartitions | sustainbench/datasets/poverty_dataset.py:59-62 | the two parts partition the input, each a subsequence in input order |
| Poverty.CountryPartition | sustainbench/datasets/poverty_dataset.py:173-177 | OOD test rows are of test countries, OOD validation rows of validation countries not in test, in-distribution rows of neither |
| Poverty.CountryPartitionExact | sustainbench/datasets/poverty_dataset.py:173-177 | the partition is exact: a row is OOD test iff its country is a test country, OOD validation iff a validation country outside the test countries, in-distribution iff neither |
| Poverty.ValidatePovertyConfig | sustainbench/datasets/poverty_dataset.py:154-164 | 'official' and 'countries' become 'countries' and folds A-E are accepted; either check failing raises ValueError |
| Poverty.IdValIdTestSlices | sustainbench/datasets/poverty_dataset.py:197-201 | the ID validation and ID test slices split the evaluation indices at 1000 |
| Poverty.InDistributionSplitsFromId | sustainbench/datasets/poverty_dataset.py:184-201 | without the oracle, train, ID val and ID test draw only in-distribution rows |
| Poverty.PovertySetup | sustainbench/datasets/poverty_dataset.py:171-201 | the split setup of a metadata table is well formed and every split it names is within the table |
| Poverty.SplitArraySpec | sustainbench/datasets/poverty_dataset.py:171-202 | one code per metadata row |
| Poverty.SplitArrayAt | sustainbench/datasets/poverty_dataset.py:178-202 | a row's code is the last split in the loop order test, val, id_test, id_val, train that lists it, or -1 |
| Poverty.SplitArrayCodes | sustainbench/datasets/poverty_dataset.py:171-202 | every code lies in -1..4 |
| Poverty.OodRowsKeepTheirCodes | sustainbench/datasets/poverty_dataset.py:178-202 | without the oracle, rows of test countries get 4, rows of validation countries outside the test countries get 3, and all other rows get a code in -1..2 |
| Poverty.OnlyOodCodes | sustainbench/datasets/poverty_dataset.py:178-202 | a row in no in-distribution split gets 3 in OOD val and 4 in OOD test |
| Poverty.OodTestOutsideOodVal | sustainbench/datasets/poverty_dataset.py:175-177 | OOD test and OOD validation rows are disjoint |
| Poverty.OodRowOutsideIdSplits | sustainbench/datasets/poverty_dataset.py:175-201 | without the oracle, OOD rows are in no in-distribution split |
| Poverty.ScatterInto | sustainbench/datasets/poverty_dataset.py:202 | `a[idxs] = v` on the array |
| Poverty.BuildSplitArray | sustainbench/datasets/poverty_dataset.py:171-202 | the array the constructor builds, seeded with ord(fold), equals the specification |
| Poverty.FillSplitArray | sustainbench/datasets/poverty_dataset.py:171-202 | the loop over the five splits fills the array as the specification says |
| Poverty.SplitDictCodes | sustainbench/datasets/poverty_dataset.py:151-206 | both split dictionaries use exactly the codes 0..4 |
| Poverty.NoOodValOnlyRenames | sustainbench/datasets/poverty_dataset.py:151-206 | without OOD validation the dictionaries only rename keys (id_val to val, val to ood_val), keeping codes and display names |
| Poverty.CountryToIdx | sustainbench/datasets/poverty_dataset.py:212 | every country gets a key; a key's value is its last position in the list |
| Poverty.CountryToIdxPositions | sustainbench/datasets/poverty_dataset.py:212 | over distinct countries, each country maps to its own position |
| Poverty.EncodeCountries | sustainbench/datasets/poverty_dataset.py:212-213 | KeyError exactly when a row's country is unknown; otherwise each row gets the index of its country |
| Poverty.GetInput | sustainbench/datasets/poverty_dataset.py:229-231 | with no_nl the last band is zeroed and the others kept (IndexError on an image with no bands); without it nothing changes |
| CropYield.SchemeCountry | sustainbench/datasets/crop_yield_dataset.py:74-80 | 'official' means usa; usa, argentina and brazil are themselves; anything else raises the ValueError |
| CropYield.LoadSplitFiles | sustainbench/datasets/crop_yield_dataset.py:132-145 | train, val and test name their four files under the country directory; any other split raises the ValueError |
| CropYield.SplitColumnAligned | sustainbench/datasets/crop_yield_dataset.py:86-97 | row i of the concatenated splits gets the code of the split it came from |
| CropYield.KeyRegions | sustainbench/datasets/crop_yield_dataset.py:99 | succeeds exactly when there is a key and the fewest pieces any key has is 3; yields each key's first two pieces |
| CropYield.KeyRegionsWellFormed | sustainbench/datasets/crop_yield_dataset.py:99 | keys of the form region1_region2_year split into their regions |
| CropYield.KeyRegionsRefused | sustainbench/datasets/crop_yield_dataset.py:99 | no keys, or a key with two pieces, fail |
| CropYield.Unique | sustainbench/datasets/crop_yield_dataset.py:113-114 | `np.unique`: strictly sorted, with exactly the input's elements |
| CropYield.RegionToLoc | sustainbench/datasets/crop_yield_dataset.py:119-120 | `list.index`: the first position holding the region, ValueError when absent |
| CropYield.LocToRegion | sustainbench/datasets/crop_yield_dataset.py:116-117 | list indexing with Python negative indices, IndexError outside -n..n-1 |
| CropYield.RegionLocRoundTrip | sustainbench/datasets/crop_yield_dataset.py:112-126 | over the unique regions, region to location to region and location to region to location are identities |
| CropYield.Locs | sustainbench/datasets/crop_yield_dataset.py:101-102 | the column mapped to positions in the table, each pointing at its own value |
| CropYield.RegionIndex | sustainbench/datasets/crop_yield_dataset.py:112-126 | sorted distinct regions and, per row, a location that reads back as the row's region |
| CropYield.NewCropYield | sustainbench/datasets/crop_yield_dataset.py:71-126 | ValueError exactly when the scheme is refused, the concatenated key, year and label columns differ in length, or the keys are refused; otherwise keys, years, labels and split codes concatenate the three splits in order, with region tables holding exactly the keys' regions, sorted, and locs that read back |
| CropYield.NewCropYieldRefusesShortColumns | sustainbench/datasets/crop_yield_dataset.py:93-97 | a split with a key but no year is refused |
| CropYield.FlattenedShapesAgree | sustainbench/datasets/crop_yield_dataset.py:161-164 | AssertionError exactly when the flattened sizes differ |
| CropYield.FlattenedShapesExamples | sustainbench/datasets/crop_yield_dataset.py:161-164 | shapes [2,3] and [3,2] agree, [6] and [5] do not |
| CropTypeMapping.SchemeCountry | sustainbench/datasets/croptypemapping_dataset.py:122-128 | 'official' and 'ghana' select Ghana, 'southsudan' South Sudan, anything else ValueError |
| CropTypeMapping.DocumentedSchemeRefused | sustainbench/datasets/croptypemapping_dataset.py:57-60 | the documented 'south-sudan' is refused; 'official' is 'ghana' |
| CropTypeMapping.IndexTableBijective | sustainbench/datasets/croptypemapping_dataset.py:16-19 | a name-to-position table maps its names one-to-one onto 0..n-1 |
| CropTypeMapping.BandTablesIndexBands | sustainbench/datasets/croptypemapping_dataset.py:16-19 | each BANDS table gives the documented bands their positions; the S2 and Planet four-band tables agree |
| CropTypeMapping.Pad | sustainbench/datasets/croptypemapping_dataset.py:151-157 | the result has the target length, keeps the series' prefix and is zero beyond it |
| CropTypeMapping.PadIdempotent | sustainbench/datasets/croptypemapping_dataset.py:151-157 | padding a padded series changes nothing |
| CropTypeMapping.PadIgnoresTrailingZeros | sustainbench/datasets/croptypemapping_dataset.py:151-157 | trailing zeros within the grid make no difference |
| CropTypeMapping.PadToGrid | sustainbench/datasets/croptypemapping_dataset.py:151-157 | every series is padded or cropped to 256 |
| CropTypeMapping.PadSeries | sustainbench/datasets/croptypemapping_dataset.py:151-157 | each band and pixel series padded independently |
| CropTypeMapping.GetDates | sustainbench/datasets/croptypemapping_dataset.py:216-223 | TypeError on an empty list; otherwise each date with its dashes removed, read as an integer, and ValueError when any date is unreadable |
| CropTypeMapping.IsoDateValue | sustainbench/datasets/croptypemapping_dataset.py:221-222 | yyyy-mm-dd reads as yyyy*10000 + mm*100 + dd |
| CropTypeMapping.GetDatesExample | sustainbench/datasets/croptypemapping_dataset.py:216-223 | 2017-01-05 reads as 20170105 |
| CropTypeMapping.LocationFilesDistinct | sustainbench/datasets/croptypemapping_dataset.py:163-238 | distinct location ids name distinct input, label and date files |
| CropTypeMapping.GetMetadata | sustainbench/datasets/croptypemapping_dataset.py:225-245 | the three satellites' dates each parsed and padded to the grid; the first list that fails (in the order s1, s2, planet) gives the error |
| CropTypeMapping.PaddedDatesMask | sustainbench/datasets/croptypemapping_dataset.py:241-243 | for positive dates that fit the grid, a padded entry is non-zero exactly where an acquisition was made |
| CropTypeKenya.BuildCropLabels | sustainbench/datasets/croptypemapping_kenya.py:19-21 | the enumerate loop builds the table mapping each name to its last position |
| CropTypeKenya.CropLabelsIndexNames | sustainbench/datasets/croptypemapping_kenya.py:19-21 | over distinct names each name gets its own position |
| CropTypeKenya.CropLabelsTable | sustainbench/datasets/croptypemapping_kenya.py:11-21 | CROP_LABELS gives each crop its position, the labels are exactly 0..8, and there are NUM_CLASSES crops |
| CropTypeKenya.FoldColumn | sustainbench/datasets/croptypemapping_kenya.py:88-93 | 'random' reads fold_random, a region reads fold_(lower-cased region)_test, anything else ValueError |
| CropTypeKenya.FoldColumnsDistinct | sustainbench/datasets/croptypemapping_kenya.py:88-93 | distinct accepted training sets read distinct fold columns |
| CropTypeKenya.FoldColumnValues | sustainbench/datasets/croptypemapping_kenya.py:88-93 | the four accepted training sets read fold_random, fold_bungoma_test, fold_busia_test and fold_siaya_test |
| CropTypeKenya.ReplaceLabels | sustainbench/datasets/croptypemapping_kenya.py:105 | each crop name becomes its label; a name the table lacks makes the tensor conversion fail |
| CropTypeKenya.ReplaceLabelsRoundTrip | sustainbench/datasets/croptypemapping_kenya.py:16-105 | each label is below NUM_CLASSES and names its crop in CROPS |
| CropTypeKenya.MatchingRows | sustainbench/datasets/croptypemapping_kenya.py:120-130 | `(ids == key).nonzero()`: exactly the rows holding the key, in increasing order |
| CropTypeKenya.SelectByFieldId | sustainbench/datasets/croptypemapping_kenya.py:120-130 | the column's values at the matching rows |
| CropTypeKenya.SelectUniqueField | sustainbench/datasets/croptypemapping_kenya.py:120-130 | an absent id selects nothing; an id on exactly one row selects that row's value |
| CropTypeKenya.LookupByFieldId | sustainbench/datasets/croptypemapping_kenya.py:116-130 | comparing the integer field ids with an integer selects the matching rows; comparing them with a string fails with AttributeError |
| CropTypeKenya.LookupAsWrittenFails | sustainbench/datasets/croptypemapping_kenya.py:116-130 | looking up `str(idx)` fails even for an id on exactly one row, where the integer lookup selects that row's value |
| CropSegmentation.IdsOf | sustainbench/datasets/crop_seg_dataset.py:58-66 | the ids of exactly the rows labelled with the split |
| CropSegmentation.Normalise | sustainbench/datasets/crop_seg_dataset.py:67 | a numpy index in -n..n-1 names position k, or n + k when negative |
| CropSegmentation.ApplySplits | sustainbench/datasets/crop_seg_dataset.py:56-67 | the array after the first k splits has one entry per row; failures are IndexError |
| CropSegmentation.ApplySplitsErrPersists | sustainbench/datasets/crop_seg_dataset.py:57-67 | once an assignment fails, later splits do not recover |
| CropSegmentation.BuildSplitArray | sustainbench/datasets/crop_seg_dataset.py:56-67 | the loop builds the array the specification describes |
| CropSegmentation.NormalisedMember | sustainbench/datasets/crop_seg_dataset.py:58-67 | a position is assigned exactly when some row of the split has an id naming it |
| CropSegmentation.SplitArrayPriority | sustainbench/datasets/crop_seg_dataset.py:56-67 | succeeds exactly when all ids are in range; a row named by test gets 2, else by val 1, else by train 0, else -1 |
| CropSegmentation.SplitArrayFails | sustainbench/datasets/crop_seg_dataset.py:56-67 | the first k splits succeed exactly when their ids are all in range |
| CropSegmentation.YArray | sustainbench/datasets/crop_seg_dataset.py:69-73 | one mask path per index, under masks_filled or masks |
| CropSegmentation.YArrayDistinct | sustainbench/datasets/crop_seg_dataset.py:69-73 | distinct indices give distinct mask paths |
| CropSegmentation.FilledMasksApart | sustainbench/datasets/crop_seg_dataset.py:69-73 | no filled mask path equals a plain mask path, the same row's included |
| CropSegmentation.Threshold | sustainbench/datasets/crop_seg_dataset.py:104-106 | 1 exactly above 0.5, otherwise 0 |
| CropSegmentation.Binarise | sustainbench/datasets/crop_seg_dataset.py:104-106 | every prediction replaced in place by its threshold |
| CropSegmentation.Truncate | sustainbench/datasets/crop_seg_dataset.py:107-108 | `astype(int)`: truncation toward zero |
| CropSegmentation.PreparePredictions | sustainbench/datasets/crop_seg_dataset.py:100-108 | AssertionError exactly when the shapes disagree; otherwise the truncated predictions, thresholded first unless already binarised (then 0/1); the caller's array is left unchanged |
| GetDataset.VersionString | sustainbench/get_dataset.py:18-19 | `str(version)`: strings unchanged, integers without a dot, floats as units.tenths |
| GetDataset.GetDataset | sustainbench/get_dataset.py:18-59 | ValueError exactly for names outside the supported datasets |
| GetDataset.GetDatasetDispatch | sustainbench/get_dataset.py:24-59 | every supported name reaches its class, the archived class exactly when the version string is '1.0' and the dataset has one |
| GetDataset.VersionRouting | sustainbench/get_dataset.py:18-51 | the string '1.0' and the float 1.0 both select the archived class; an integer version never does |
| Strings.Format06dRoundTrip | sustainbench/datasets/croptypemapping_dataset.py:163 | `f'{id:06d}'` has six or more digits and reads back as the id |
| Strings.Format06dInjective | sustainbench/datasets/croptypemapping_dataset.py:163 | distinct ids format differently |
| Strings.RemoveChar | sustainbench/datasets/croptypemapping_dataset.py:221 | no removed character is left, and a string without it is unchanged |
| Strings.RemoveCharCounts | sustainbench/datasets/croptypemapping_dataset.py:221 | every other character remains exactly as often as it occurs |
| Strings.RemoveCharInOrder | sustainbench/datasets/croptypemapping_dataset.py:221 | the remaining characters keep their order |
| Strings.RemoveCharConcat | sustainbench/datasets/croptypemapping_dataset.py:221 | removing a character distributes over concatenation |
| Strings.JoinSplit | sustainbench/datasets/crop_yield_dataset.py:99 | joining the pieces with the separator gives back the key |
| Strings.Lower | sustainbench/datasets/croptypemapping_kenya.py:93 | same length, each ASCII letter lower-cased, every other character kept |
| Strings.LexLessTotal | sustainbench/datasets/crop_yield_dataset.py:113 | the string order `np.unique` sorts by is total on distinct strings |
| Strings.PathJoinName | sustainbench/datasets/croptypemapping_dataset.py:164 | the joined path ends with the file name after the separator |
| Seqs.LastPositionsSpec | sustainbench/datasets/poverty_dataset.py:212 | the dict comprehension over an enumeration: keys are the elements, each mapped to its last position |

## Left out

- Earth Engine, Google Cloud Storage, Drive, file system and network calls are not modelled. Images, CSV, JSON, NPZ and PNG contents are parameters.
- Floating point is modelled as exact reals. NDVI/GCVI, normalisation, metrics (f1, accuracy) and tensor conversion are not modelled.
- `time.sleep`, `tqdm` and the printing in `wait_on_tasks` are not modelled.
- TaskPolling.WaitOnTasks: the source loops until every task finishes. The model takes a bound on the number of rounds, because a task that never finishes would make the loop diverge.
- Landsat.SortByTime: Earth Engine's sort is modelled as a stable insertion sort by `system:time_start`. The order of scenes with equal times is not specified by the source.
- `add_latlon`, `sample_patch`, `get_array_patches`, `init_coll`'s date and region filters, and image loading in every `get_input` are not modelled: they only call Earth Engine or load files.
- `subsample_idxs` and the evaluation grouper are external: the subsampler is a parameter, constrained to return indices drawn from its input.
- brick_kiln and fmow are only dispatch targets in `get_dataset`; their classes are not part of this model.
- CropYield.LoadSplitFiles: the `os.path.isdir` check on the country directory and its `FileNotFoundError` (crop_yield_dataset.py:139-140) are not modelled, since the file system is not part of the model.
- CropTypeKenya.SelectByFieldId: describes the intended lookup by field id. The source compares the integer field-id tensor with `str(idx)`, which cannot match; see Findings and `CropTypeKenya.LookupByFieldId`.
- CropSegmentation.ApplySplits: the split array is modelled with integer codes; the source fills a float array starting at -1.0.
- Poverty.SplitArraySpec: the split array is modelled with integer codes; the source's `-1 * np.ones(...)` is a float array.
- Poverty.SplitByCountries: with an empty list of OOD countries, numpy's `np.any([], axis=0)` is a scalar, so the source's in-distribution part gains an extra leading axis. The model returns the indices unchanged, every row in distribution.
- CropTypeMapping.GetDates: the source converts with `np.int`, which NumPy 1.24 removed. The model assumes an older NumPy, where `np.int` is Python's `int`.
- Strings.PathJoin: assumes a non-empty directory without a trailing '/'. For an empty directory or one ending in '/', pathlib and `os.path.join` add no separator there, but the model does.
- GetDataset.VersionString: float versions are modelled with a single decimal digit.
- CropTypeMapping.GetDates: a date must be digits once its dashes are removed. Python's `int` also accepts surrounding whitespace, a sign and underscores, which the model refuses.
- Strings.Lower: lower-cases A-Z only. Python's `str.lower` also folds non-ASCII letters, sometimes changing the length; the region names it is applied to are ASCII.
- CropYield.NewCropYield: the histograms are loaded files and are not carried in the model; the yield labels are carried as values.
- Keyword arguments passed through `get_dataset` to the constructors are not modelled.

## Findings

| source | as written | input that shows it | evidently intended | confidence | as-written member | corrected member |
|---|---|---|---|---|---|---|
| sustainbench/datasets/croptypemapping_kenya.py:116-130 | `get_label` and `get_input` compare the integer field-id tensor from `torch.from_numpy` with the string `str(idx)`. The result is the plain value False, which has no `nonzero`. | field ids [7], labels [3], idx 7 | select the rows whose field id equals idx, giving [3] | not executed; the outcome depends on PyTorch's comparison of a tensor with a string | CropTypeKenya.LookupAsWrittenFails | CropTypeKenya.SelectByFieldId |
