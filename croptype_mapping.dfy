/** The African crop-type mapping dataset (Ghana and South Sudan): the split
    scheme, the band index tables, the six-digit location ids that name every
    per-location file, and the zero right-padding of each time series (images
    and their acquisition dates) to the country's grid size. The arrays are
    modelled along their time axis; loading, normalisation and NDVI/GCVI are not
    modelled. */
module CropTypeMapping {
  import opened Common
  import opened Strings

  // ---------------------------------------------------------------------------
  // Split scheme.

  /** 'official' and 'ghana' select Ghana, 'southsudan' South Sudan; any other
      scheme, the documented 'south-sudan' included, fails with ValueError. */
  function SchemeCountry(scheme: string): (r: Result<string>)
    ensures r.Ok? <==> scheme == "official" || scheme == "ghana" || scheme == "southsudan"
    ensures r.Err? ==> r.error.ValueError?
    ensures r.Ok? ==> (r.value == "ghana" <==> scheme != "southsudan")
    ensures r.Ok? ==> r.value in GRID_SIZE
  {
    if scheme == "official" || scheme == "ghana" then Ok("ghana")
    else if scheme == "southsudan" then Ok("southsudan")
    else Err(ValueError("Split scheme " + scheme + " not recognized"))
  }

  /** The spelling in the class documentation is not one the constructor accepts. */
  lemma DocumentedSchemeRefused()
    ensures SchemeCountry("south-sudan").Err?
    ensures SchemeCountry("official") == SchemeCountry("ghana") == Ok("ghana")
  {
  }

  // ---------------------------------------------------------------------------
  // Band index tables.

  /** `t` gives every name in `names` its position, and knows no other name. */
  ghost predicate IndexesNames(t: map<string, nat>, names: seq<string>)
  {
    && (forall k :: k in t <==> k in names)
    && (forall i :: 0 <= i < |names| ==> names[i] in t && t[names[i]] == i)
  }

  /** A table that gives names their positions maps them one-to-one onto 0..n-1. */
  lemma IndexTableBijective(t: map<string, nat>, names: seq<string>)
    requires IndexesNames(t, names)
    ensures forall v: nat :: v in t.Values <==> v < |names|
    ensures forall a, b :: a in t && b in t && t[a] == t[b] ==> a == b
  {
    forall v: nat | v in t.Values
      ensures v < |names|
    {
      var k :| k in t && t[k] == v;
      var i :| 0 <= i < |names| && names[i] == k;
    }
    forall v: nat | v < |names|
      ensures v in t.Values
    {
      assert names[v] in t && t[names[v]] == v;
    }
    forall a, b | a in t && b in t && t[a] == t[b]
      ensures a == b
    {
      var i :| 0 <= i < |names| && names[i] == a;
      var j :| 0 <= j < |names| && names[j] == b;
    }
  }

  /** `BANDS`: for each satellite (and band count), band name to channel. */
  const BANDS_S1: map<string, nat> := map["VV" := 0, "VH" := 1, "RATIO" := 2]
  const BANDS_S2_10: map<string, nat> :=
    map["BLUE" := 0, "GREEN" := 1, "RED" := 2, "RDED1" := 3, "RDED2" := 4,
        "RDED3" := 5, "NIR" := 6, "RDED4" := 7, "SWIR1" := 8, "SWIR2" := 9]
  const BANDS_S2_4: map<string, nat> := map["BLUE" := 0, "GREEN" := 1, "RED" := 2, "NIR" := 3]
  const BANDS_PLANET_4: map<string, nat> := map["BLUE" := 0, "GREEN" := 1, "RED" := 2, "NIR" := 3]

  /** The band orders the class documentation lists. */
  const S1_NAMES: seq<string> := ["VV", "VH", "RATIO"]
  const S2_10_NAMES: seq<string> :=
    ["BLUE", "GREEN", "RED", "RDED1", "RDED2", "RDED3", "NIR", "RDED4", "SWIR1", "SWIR2"]
  const FOUR_BAND_NAMES: seq<string> := ["BLUE", "GREEN", "RED", "NIR"]

  lemma S2TenBandsIndexed()
    ensures IndexesNames(BANDS_S2_10, S2_10_NAMES)
  {
    forall k
      ensures k in BANDS_S2_10 <==> k in S2_10_NAMES
    {
      if k in S2_10_NAMES {
        var i :| 0 <= i < 10 && S2_10_NAMES[i] == k;
      }
    }
  }

  /** Every table of `BANDS` gives the listed bands their positions, so it maps its
      band names one-to-one onto 0..n-1; the four-band tables of S2 and Planet
      agree. */
  lemma BandTablesIndexBands()
    ensures IndexesNames(BANDS_S1, S1_NAMES)
    ensures IndexesNames(BANDS_S2_10, S2_10_NAMES)
    ensures IndexesNames(BANDS_S2_4, FOUR_BAND_NAMES) && IndexesNames(BANDS_PLANET_4, FOUR_BAND_NAMES)
    ensures BANDS_S2_4 == BANDS_PLANET_4
    ensures forall v: nat :: v in BANDS_S2_10.Values <==> v < 10
    ensures forall a, b :: a in BANDS_S2_10 && b in BANDS_S2_10 && BANDS_S2_10[a] == BANDS_S2_10[b] ==> a == b
  {
    S2TenBandsIndexed();
    IndexTableBijective(BANDS_S2_10, S2_10_NAMES);
  }

  // ---------------------------------------------------------------------------
  // Padding of time series.

  /** `GRID_SIZE`: the length every time series is padded or cropped to. */
  const GRID_SIZE: map<string, nat> := map["ghana" := 256, "southsudan" := 256]

  /** `torch.nn.functional.pad(t, (0, size - |t|))` on the last axis: a negative
      amount crops from the right, a positive one appends `zero`s. */
  function Pad<T>(t: seq<T>, size: nat, zero: T): (r: seq<T>)
    ensures |r| == size
    ensures forall i :: 0 <= i < size && i < |t| ==> r[i] == t[i]
    ensures forall i :: |t| <= i < size ==> r[i] == zero
  {
    if |t| >= size then t[..size] else t + seq(size - |t|, _ => zero)
  }

  /** Padding what is already padded changes nothing. */
  lemma PadIdempotent<T>(t: seq<T>, size: nat, zero: T)
    ensures Pad(Pad(t, size, zero), size, zero) == Pad(t, size, zero)
  {
  }

  /** Trailing zeros within the grid make no difference: a series and the same
      series followed by zeros pad to the same thing. */
  lemma {:induction false} PadIgnoresTrailingZeros<T>(t: seq<T>, k: nat, size: nat, zero: T)
    requires |t| <= size
    ensures Pad(t + seq(k, _ => zero), size, zero) == Pad(t, size, zero)
  {
    var a := Pad(t + seq(k, _ => zero), size, zero);
    var b := Pad(t, size, zero);
    forall i | 0 <= i < size
      ensures a[i] == b[i]
    {
      if i < |t| {
        assert (t + seq(k, _ => zero))[i] == t[i];
      } else if i < |t| + k {
        assert (t + seq(k, _ => zero))[i] == zero;
      }
    }
  }

  /** `pad` for a country: the series padded or cropped to its grid size. */
  function PadToGrid<T>(t: seq<T>, country: string, zero: T): (r: seq<T>)
    requires country in GRID_SIZE
    ensures |r| == 256
    ensures forall i :: 0 <= i < 256 && i < |t| ==> r[i] == t[i]
    ensures forall i :: |t| <= i < 256 ==> r[i] == zero
  {
    Pad(t, GRID_SIZE[country], zero)
  }

  /** An image array along its time axis: one series per band and pixel. */
  function PadSeries<T>(series: seq<seq<T>>, country: string, zero: T): (r: seq<seq<T>>)
    requires country in GRID_SIZE
    ensures |r| == |series|
    ensures forall j :: 0 <= j < |series| ==> r[j] == PadToGrid(series[j], country, zero)
  {
    seq(|series|, j requires 0 <= j < |series| => PadToGrid(series[j], country, zero))
  }

  // ---------------------------------------------------------------------------
  // Dates.

  /** `get_dates`: every '-' deleted from each date, the rest read as an integer.
      An empty list becomes a float array, on which the string replacement fails
      with TypeError; one unreadable date fails the conversion with ValueError. */
  function GetDates(dates: seq<string>): (r: Result<seq<nat>>)
    ensures r.Ok? <==> |dates| > 0 && forall i :: 0 <= i < |dates| ==> ParseNat(RemoveChar(dates[i], '-')).Some?
    ensures dates == [] ==> r == Err(TypeError)
    ensures dates != [] && r.Err? ==> r.error.ValueError?
    ensures r.Ok? ==> |r.value| == |dates|
    ensures r.Ok? ==> forall i :: 0 <= i < |dates| ==> Some(r.value[i]) == ParseNat(RemoveChar(dates[i], '-'))
  {
    if dates == [] then
      Err(TypeError)
    else if forall i :: 0 <= i < |dates| ==> ParseNat(RemoveChar(dates[i], '-')).Some? then
      Ok(seq(|dates|, i requires 0 <= i < |dates| => ParseNat(RemoveChar(dates[i], '-')).value))
    else
      Err(ValueError("invalid literal for int()"))
  }

  /** An ISO date 'YYYY-MM-DD' becomes the integer YYYYMMDD. */
  lemma IsoDateValue(y: string, m: string, d: string)
    requires |y| > 0 && AllDigits(y) && AllDigits(m) && AllDigits(d) && |m| == 2 && |d| == 2
    ensures ParseNat(RemoveChar(y + "-" + m + "-" + d, '-'))
            == Some(DigitsValue(y) * 10000 + DigitsValue(m) * 100 + DigitsValue(d))
  {
    DashesRemoved(y, m, d);
    DigitsOfDate(y, m, d);
  }

  lemma DashesRemoved(y: string, m: string, d: string)
    requires AllDigits(y) && AllDigits(m) && AllDigits(d)
    ensures RemoveChar(y + "-" + m + "-" + d, '-') == y + m + d
  {
    var c := '-';
    NoDashInDigits(y);
    NoDashInDigits(m);
    NoDashInDigits(d);
    var s1 := y + "-";
    var s2 := s1 + m;
    var s3 := s2 + "-";
    assert RemoveChar("-", c) == [];
    RemoveCharConcat(y, "-", c);
    assert RemoveChar(s1, c) == y;
    RemoveCharConcat(s1, m, c);
    assert RemoveChar(s2, c) == y + m;
    RemoveCharConcat(s2, "-", c);
    assert RemoveChar(s3, c) == y + m;
    RemoveCharConcat(s3, d, c);
  }

  lemma DigitsOfDate(y: string, m: string, d: string)
    requires |y| > 0 && AllDigits(y) && AllDigits(m) && AllDigits(d) && |m| == 2 && |d| == 2
    ensures ParseNat(y + m + d) == Some(DigitsValue(y) * 10000 + DigitsValue(m) * 100 + DigitsValue(d))
  {
    var s := y + m + d;
    var v := DateDigitsValue(y, m, d);
    assert |s| > 0 && AllDigits(s) && DigitsValue(s) == v;
  }

  /** The digits of year, month and day, read together. */
  lemma DateDigitsValue(y: string, m: string, d: string) returns (v: nat)
    requires AllDigits(y) && AllDigits(m) && AllDigits(d) && |m| == 2 && |d| == 2
    ensures AllDigits(y + m + d)
    ensures v == DigitsValue(y + m + d) == DigitsValue(y) * 10000 + DigitsValue(m) * 100 + DigitsValue(d)
  {
    TwoDigitShift(y, m);
    TwoDigitShift(y + m, d);
    v := DigitsValue(y + m + d);
    ShiftedTwice(DigitsValue(y), DigitsValue(m), DigitsValue(d), DigitsValue(y + m), v);
  }

  /** Two two-digit shifts in a row place the year four digits up. */
  lemma ShiftedTwice(vy: nat, vm: nat, vd: nat, vym: nat, v: nat)
    requires vym == vy * 100 + vm && v == vym * 100 + vd
    ensures v == vy * 10000 + vm * 100 + vd
  {
    DateArithmetic(vy, vm, vd);
  }

  lemma TwoDigitShift(a: string, b: string)
    requires AllDigits(a) && AllDigits(b) && |b| == 2
    ensures AllDigits(a + b)
    ensures DigitsValue(a + b) == DigitsValue(a) * 100 + DigitsValue(b)
  {
    DigitsValueConcat(a, b);
    assert Pow10(|b|) == 100;
  }

  lemma NoDashInDigits(s: string)
    requires AllDigits(s)
    ensures '-' !in s
  {
    forall i | 0 <= i < |s|
      ensures s[i] != '-'
    {
      assert IsDigit(s[i]);
    }
  }

  lemma DateArithmetic(y: nat, m: nat, d: nat)
    ensures (y * 100 + m) * 100 + d == y * 10000 + m * 100 + d
  {
  }

  /** The example of the dataset documentation: 2017-01-05 reads as 20170105. */
  lemma GetDatesExample()
    ensures GetDates(["2017-01-05"]) == Ok([20170105])
  {
    ExampleDate();
    GetDatesSingle("2017-01-05");
  }

  lemma GetDatesSingle(date: string)
    requires ParseNat(RemoveChar(date, '-')).Some?
    ensures GetDates([date]) == Ok([ParseNat(RemoveChar(date, '-')).value])
  {
    var r := GetDates([date]);
    assert [date][0] == date;
    assert r.Ok?;
    assert |r.value| == 1;
    assert Some(r.value[0]) == ParseNat(RemoveChar(date, '-'));
    assert r.value == [r.value[0]];
  }

  lemma ExampleDigits()
    ensures AllDigits("2017") && AllDigits("01") && AllDigits("05")
    ensures DigitsValue("2017") == 2017 && DigitsValue("01") == 1 && DigitsValue("05") == 5
  {
    assert "2017"[..3] == "201" && "201"[..2] == "20" && "20"[..1] == "2";
    assert "01"[..1] == "0" && "05"[..1] == "0";
  }

  lemma ExampleDate()
    ensures ParseNat(RemoveChar("2017-01-05", '-')) == Some(20170105)
  {
    ExampleDigits();
    IsoDateValue("2017", "01", "05");
    assert "2017" + "-" + "01" + "-" + "05" == "2017-01-05";
  }

  // ---------------------------------------------------------------------------
  // Per-location files.

  /** The six-digit location id every file of a location is named with. */
  function LocId(id: int): string
  {
    Format06d(id)
  }

  /** The input archive, the label archive and the three date files of a location. */
  function NpyPath(dataDir: string, country: string, id: int): string
  {
    PathJoin(PathJoin(PathJoin(dataDir, country), "npy"), country + "_" + LocId(id) + ".npz")
  }

  function TruthPath(dataDir: string, country: string, id: int): string
  {
    PathJoin(PathJoin(PathJoin(dataDir, country), "truth"), country + "_" + LocId(id) + ".npz")
  }

  function DatesPath(dataDir: string, country: string, satellite: string, id: int): string
  {
    PathJoin(PathJoin(PathJoin(dataDir, country), satellite), satellite + "_" + country + "_" + LocId(id) + ".json")
  }

  lemma CancelAffixes(p: string, x: string, y: string, e: string)
    requires p + x + e == p + y + e
    ensures x == y
  {
    var s := p + x + e;
    assert |x| == |y|;
    assert x == s[|p|..|p| + |x|];
    assert y == (p + y + e)[|p|..|p| + |y|];
  }

  /** Distinct ids give distinct names between the same prefix and extension. */
  lemma LocNamesDistinct(p: string, e: string, m: nat, n: nat)
    requires m != n
    ensures p + LocId(m) + e != p + LocId(n) + e
  {
    Format06dInjective(m, n);
    if p + LocId(m) + e == p + LocId(n) + e {
      CancelAffixes(p, LocId(m), LocId(n), e);
    }
  }

  /** Distinct ids name distinct files, for the inputs, the labels and every
      satellite's dates alike: each file name carries the id in full. */
  lemma LocationFilesDistinct(dataDir: string, country: string, satellite: string, m: nat, n: nat)
    requires m != n
    ensures NpyPath(dataDir, country, m) != NpyPath(dataDir, country, n)
    ensures TruthPath(dataDir, country, m) != TruthPath(dataDir, country, n)
    ensures DatesPath(dataDir, country, satellite, m) != DatesPath(dataDir, country, satellite, n)
  {
    NamedByLocId(PathJoin(PathJoin(dataDir, country), "npy"), country + "_", ".npz", m, n);
    NamedByLocId(PathJoin(PathJoin(dataDir, country), "truth"), country + "_", ".npz", m, n);
    NamedByLocId(PathJoin(PathJoin(dataDir, country), satellite), satellite + "_" + country + "_", ".json", m, n);
  }

  lemma NamedByLocId(dir: string, stem: string, ext: string, m: nat, n: nat)
    requires m != n
    ensures PathJoin(dir, stem + LocId(m) + ext) != PathJoin(dir, stem + LocId(n) + ext)
  {
    LocNamesDistinct(stem, ext, m, n);
    PathJoinName(dir, stem + LocId(m) + ext);
    PathJoinName(dir, stem + LocId(n) + ext);
  }

  // ---------------------------------------------------------------------------
  // Metadata.

  datatype Metadata = Metadata(s1: seq<nat>, s2: seq<nat>, planet: seq<nat>)

  /** `get_metadata`: the dates of the three satellites' series, each read with
      `get_dates` and padded with 0 to the grid size; the first list that fails
      gives the error. */
  function GetMetadata(country: string, s1Dates: seq<string>, s2Dates: seq<string>, planetDates: seq<string>)
    : (r: Result<Metadata>)
    requires country in GRID_SIZE
    ensures r.Ok? <==> GetDates(s1Dates).Ok? && GetDates(s2Dates).Ok? && GetDates(planetDates).Ok?
    ensures GetDates(s1Dates).Err? ==> r == Err(GetDates(s1Dates).error)
    ensures GetDates(s1Dates).Ok? && GetDates(s2Dates).Err? ==> r == Err(GetDates(s2Dates).error)
    ensures GetDates(s1Dates).Ok? && GetDates(s2Dates).Ok? && GetDates(planetDates).Err? ==>
              r == Err(GetDates(planetDates).error)
    ensures r.Ok? ==> |r.value.s1| == 256 && |r.value.s2| == 256 && |r.value.planet| == 256
    ensures r.Ok? ==> r.value.s1 == PadToGrid(GetDates(s1Dates).value, country, 0)
    ensures r.Ok? ==> r.value.s2 == PadToGrid(GetDates(s2Dates).value, country, 0)
    ensures r.Ok? ==> r.value.planet == PadToGrid(GetDates(planetDates).value, country, 0)
  {
    var s1 :- GetDates(s1Dates);
    var s2 :- GetDates(s2Dates);
    var planet :- GetDates(planetDates);
    Ok(Metadata(PadToGrid(s1, country, 0), PadToGrid(s2, country, 0), PadToGrid(planet, country, 0)))
  }

  /** The padded dates give the series' mask: when every date reads as a positive
      number and the series fits the grid, an entry is non-zero exactly where an
      acquisition was made. */
  lemma {:induction false} PaddedDatesMask(dates: seq<string>, country: string)
    requires country in GRID_SIZE
    requires GetDates(dates).Ok? && |dates| <= 256
    requires forall i :: 0 <= i < |dates| ==> GetDates(dates).value[i] > 0
    ensures var padded := PadToGrid(GetDates(dates).value, country, 0);
            forall i :: 0 <= i < 256 ==> (padded[i] != 0 <==> i < |dates|)
  {
    var v := GetDates(dates).value;
    var padded := PadToGrid(v, country, 0);
    forall i | 0 <= i < 256
      ensures padded[i] != 0 <==> i < |dates|
    {
      if i < |dates| {
        assert padded[i] == v[i];
      } else {
        assert padded[i] == 0;
      }
    }
  }
}
