/** The nightlights compositor (`DMSP_IMGS` and `composite_nl`): the choice of
    source raster for a survey year, the DMSP inter-annual calibration, and the
    final clamp, stated per pixel over exact reals. */
module Nightlights {
  import opened Common
  import opened Strings
  import opened SurveyDates

  /** Linear calibration `y = bias + slope * x` towards the F16 2005-2006 composite. */
  datatype Calibration = Calibration(bias: real, slope: real)

  /** One yearly DMSP composite and the survey years `[start, end]` it serves. */
  datatype DmspRecord = DmspRecord(imageId: string, start: int, end: int, calibration: Option<Calibration>)

  /** The calibration table, in the order the dictionary is iterated. */
  const DMSP_IMGS: seq<DmspRecord> := [
    DmspRecord("F12_19960316-19970212_V4", 1996, 1997, Some(Calibration(4.336, 0.915))),
    DmspRecord("F12_19990119-19991211_V4", 1998, 1999, Some(Calibration(1.423, 0.780))),
    DmspRecord("F12-F15_20000103-20001229_V4", 2000, 2001, Some(Calibration(3.658, 0.710))),
    DmspRecord("F14-F15_20021230-20031127_V4", 2002, 2003, Some(Calibration(3.736, 0.797))),
    DmspRecord("F14_20040118-20041216_V4", 2004, 2004, Some(Calibration(1.062, 0.761))),
    DmspRecord("F16_20051128-20061224_V4", 2005, 2008, None),
    DmspRecord("F16_20100111-20101209_V4", 2009, 2010, Some(Calibration(2.196, 1.195))),
    DmspRecord("F16_20100111-20110731_V4", 2011, 2011, Some(Calibration(-1.987, 1.246)))
  ]

  const DMSP_COLLECTION := "NOAA/DMSP-OLS/CALIBRATED_LIGHTS_V4/"
  const VIIRS_COLLECTION := "NOAA/VIIRS/DNB/MONTHLY_V1/VCMCFG"
  /** The clamp's upper bound, written `1e9` in the source. */
  const NL_MAX: real := 1000000000.0

  predicate Covers(r: DmspRecord, year: int) { r.start <= year <= r.end }

  predicate DmspYear(year: int) { 1996 <= year <= 2011 }

  /** The record the for-break loop leaves selected: the first record from
      position `from` on that covers `year`, or the last record if none does. */
  function SelectFrom(table: seq<DmspRecord>, year: int, from: nat): (k: nat)
    requires from < |table|
    ensures from <= k < |table|
    ensures forall j :: from <= j < k ==> !Covers(table[j], year)
    ensures Covers(table[k], year) || k == |table| - 1
    decreases |table| - from
  {
    if Covers(table[from], year) || from == |table| - 1 then from
    else SelectFrom(table, year, from + 1)
  }

  /** The selection over the whole table is the first covering record whenever one covers. */
  lemma SelectFirstCovering(table: seq<DmspRecord>, year: int, i: nat)
    requires i < |table| && Covers(table[i], year)
    ensures Covers(table[SelectFrom(table, year, 0)], year)
    ensures SelectFrom(table, year, 0) <= i
  {
  }

  /** `for img_id, v in DMSP_IMGS.items(): if v['start'] <= year <= v['end']: break`. */
  method SelectDmsp(year: int) returns (k: nat)
    ensures k < |DMSP_IMGS|
    ensures k == SelectFrom(DMSP_IMGS, year, 0)
    ensures DmspYear(year) ==> Covers(DMSP_IMGS[k], year)
  {
    k := 0;
    while k < |DMSP_IMGS| - 1 && !Covers(DMSP_IMGS[k], year)
      invariant 0 <= k < |DMSP_IMGS|
      invariant SelectFrom(DMSP_IMGS, year, 0) == SelectFrom(DMSP_IMGS, year, k)
    {
      k := k + 1;
    }
    if DmspYear(year) {
      DmspTableCoversEra(year);
    }
  }

  /** The table's ranges start at 1996, end at 2011, and each begins the year
      after its predecessor ends: they are contiguous and do not overlap. */
  lemma DmspTableContiguous()
    ensures |DMSP_IMGS| == 8
    ensures DMSP_IMGS[0].start == 1996 && DMSP_IMGS[7].end == 2011
    ensures forall i :: 0 <= i < 8 ==> DMSP_IMGS[i].start <= DMSP_IMGS[i].end
    ensures forall i :: 0 <= i < 7 ==> DMSP_IMGS[i + 1].start == DMSP_IMGS[i].end + 1
  {
  }

  /** Every DMSP-era year is covered by exactly one record. */
  lemma DmspTableCoversEra(year: int)
    requires DmspYear(year)
    ensures exists i :: 0 <= i < |DMSP_IMGS| && Covers(DMSP_IMGS[i], year)
    ensures forall i, j ::
              (0 <= i < |DMSP_IMGS| && 0 <= j < |DMSP_IMGS| &&
               Covers(DMSP_IMGS[i], year) && Covers(DMSP_IMGS[j], year)) ==> i == j
  {
    DmspTableContiguous();
    var i := if year <= 1997 then 0 else if year <= 1999 then 1 else if year <= 2001 then 2
      else if year <= 2003 then 3 else if year <= 2004 then 4 else if year <= 2008 then 5
      else if year <= 2010 then 6 else 7;
    assert Covers(DMSP_IMGS[i], year);
  }

  /** Only the reference composite F16 2005-2006 has no calibration. */
  lemma OnlyReferenceUncalibrated(i: nat)
    requires i < |DMSP_IMGS|
    ensures DMSP_IMGS[i].calibration.None? <==> DMSP_IMGS[i].imageId == "F16_20051128-20061224_V4"
  {
  }

  /** What the compositor builds for a year: one calibrated DMSP image, or the
      median of the VIIRS monthly composites inside the survey's date window. */
  datatype NlComposite =
    | Dmsp(imageId: string, calibration: Option<Calibration>)
    | Viirs(collection: string, startDate: string, endDate: string)

  /** `composite_nl`: DMSP for 1996-2011 through the first covering record;
      otherwise the VIIRS window of `surveyyear_to_range`, which refuses years
      outside 1996-2019. */
  function CompositeNl(year: int): (r: Result<NlComposite>)
    ensures r.Err? <==> !ValidSurveyYear(year)
    ensures DmspYear(year) ==> r.Ok? && r.value.Dmsp?
    ensures r.Ok? && r.value.Dmsp? ==>
              (exists i :: 0 <= i < |DMSP_IMGS| && Covers(DMSP_IMGS[i], year) &&
                 r.value == Dmsp(DMSP_COLLECTION + DMSP_IMGS[i].imageId, DMSP_IMGS[i].calibration))
    ensures r.Ok? && r.value.Viirs? ==>
              (2012 <= year <= 2019 && (r.value.startDate, r.value.endDate) == SurveyYearToRange(year).value)
  {
    if DmspYear(year) then
      DmspTableCoversEra(year);
      var rec := DMSP_IMGS[SelectFrom(DMSP_IMGS, year, 0)];
      Ok(Dmsp(DMSP_COLLECTION + rec.imageId, rec.calibration))
    else
      var range :- SurveyYearToRange(year);
      Ok(Viirs(VIIRS_COLLECTION, range.0, range.1))
  }

  function Clamp(x: real, lo: real, hi: real): real
    requires lo <= hi
  {
    if x < lo then lo else if x > hi then hi else x
  }

  /** The output `NIGHTLIGHTS` value of one pixel, given the source value there:
      `avg_vis` of the DMSP image, or the median `avg_rad` of the VIIRS months. */
  function NightlightsValue(c: NlComposite, x: real): (y: real)
    ensures 0.0 <= y <= NL_MAX
    ensures (c.Viirs? || c.calibration.None?) && 0.0 <= x <= NL_MAX ==> y == x
    ensures c.Dmsp? && c.calibration.Some? ==>
              var v := x * c.calibration.value.slope + c.calibration.value.bias;
              (0.0 <= v <= NL_MAX ==> y == v) && (v < 0.0 ==> y == 0.0) && (v > NL_MAX ==> y == NL_MAX)
  {
    var v := if c.Dmsp? && c.calibration.Some? then x * c.calibration.value.slope + c.calibration.value.bias else x;
    Clamp(v, 0.0, NL_MAX)
  }

  /** Survey year 2003 uses F14-F15 2002-2003 with bias 3.736 and slope 0.797;
      2006 uses the uncalibrated reference; 2015 takes the VIIRS months of
      2014-01-01..2016-12-31; 1995 and 2020 are refused. */
  lemma CompositeExamples()
    ensures CompositeNl(2003) == Ok(Dmsp(DMSP_COLLECTION + "F14-F15_20021230-20031127_V4", Some(Calibration(3.736, 0.797))))
    ensures CompositeNl(2006) == Ok(Dmsp(DMSP_COLLECTION + "F16_20051128-20061224_V4", None))
    ensures CompositeNl(2015) == Ok(Viirs(VIIRS_COLLECTION, "2014-01-01", "2016-12-31"))
    ensures CompositeNl(1995).Err? && CompositeNl(2020).Err?
  {
    CompositeDmspExamples();
    CompositeViirsExample();
    CompositeOutOfRange();
  }

  lemma CompositeDmspExamples()
    ensures CompositeNl(2003) == Ok(Dmsp(DMSP_COLLECTION + "F14-F15_20021230-20031127_V4", Some(Calibration(3.736, 0.797))))
    ensures CompositeNl(2006) == Ok(Dmsp(DMSP_COLLECTION + "F16_20051128-20061224_V4", None))
  {
    assert SelectFrom(DMSP_IMGS, 2003, 0) == 3;
    assert SelectFrom(DMSP_IMGS, 2006, 0) == 5;
  }

  lemma CompositeViirsExample()
    ensures CompositeNl(2015) == Ok(Viirs(VIIRS_COLLECTION, "2014-01-01", "2016-12-31"))
  {
    assert IntToDecimal(2014) == "2014";
    assert IntToDecimal(2016) == "2016";
    assert "2014" + "-01-01" == "2014-01-01";
    assert "2016" + "-12-31" == "2016-12-31";
    assert SurveyYearToRange(2015) == Ok((IntToDecimal(2014) + "-01-01", IntToDecimal(2016) + "-12-31"));
  }

  lemma CompositeOutOfRange()
    ensures CompositeNl(1995).Err? && CompositeNl(2020).Err?
  {
  }
}
