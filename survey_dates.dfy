/** The 3-year date window centred on a survey year
    (`surveyyear_to_range` in the DHS/LSMS preprocessing utilities). */
module SurveyDates {
  import opened Common
  import opened Strings

  const FIRST_SURVEY_YEAR := 1996
  const LAST_SURVEY_YEAR := 2019

  predicate ValidSurveyYear(year: int) { FIRST_SURVEY_YEAR <= year <= LAST_SURVEY_YEAR }

  /** `(start_date, end_date)` as 'yyyy-mm-dd' strings: January 1st of the year
      before and December 31st of the year after. Years outside 1996..2019 fail:
      2020 is refused because a window centred on it would need 2021 imagery. */
  function SurveyYearToRange(year: int): (r: Result<(string, string)>)
    ensures r.Err? <==> !ValidSurveyYear(year)
    ensures r.Err? ==> r.error.ValueError?
    ensures r.Ok? ==> |r.value.0| == 10 && |r.value.1| == 10
    ensures r.Ok? ==> r.value.0[4..] == "-01-01" && r.value.1[4..] == "-12-31"
  {
    if !ValidSurveyYear(year) then
      Err(ValueError("Invalid survey_year: " + IntToDecimal(year) +
                     ". Must be between 1996 and 2019 (inclusive)"))
    else
      FourDigits(year - 1);
      FourDigits(year + 1);
      Ok((IntToDecimal(year - 1) + "-01-01", IntToDecimal(year + 1) + "-12-31"))
  }

  lemma {:induction false} FourDigits(y: int)
    requires 1000 <= y < 10000
    ensures |IntToDecimal(y)| == 4
  {
    assert IntToDecimal(y) == NatToDecimal(y);
    assert NatToDecimal(y) == NatToDecimal(y / 10) + [DigitChar(y % 10)];
    assert NatToDecimal(y / 10) == NatToDecimal(y / 100) + [DigitChar((y / 10) % 10)];
    assert NatToDecimal(y / 100) == NatToDecimal(y / 1000) + [DigitChar((y / 100) % 10)];
  }

  /** The year fields of the window read back as `year - 1` and `year + 1`:
      the window covers exactly the three calendar years around the survey. */
  lemma SurveyWindowYears(year: int)
    requires ValidSurveyYear(year)
    ensures SurveyYearToRange(year).Ok?
    ensures ParseNat(SurveyYearToRange(year).value.0[..4]) == Some(year - 1)
    ensures ParseNat(SurveyYearToRange(year).value.1[..4]) == Some(year + 1)
  {
    var (s, e) := SurveyYearToRange(year).value;
    FourDigits(year - 1);
    FourDigits(year + 1);
    assert s[..4] == NatToDecimal(year - 1);
    assert e[..4] == NatToDecimal(year + 1);
    ParseNatToDecimal(year - 1);
    ParseNatToDecimal(year + 1);
  }
}
