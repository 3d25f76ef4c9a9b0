/** The Landsat surface-reflectance mosaic: the pixel-QA cloud/shadow/snow mask
    (`mask_qaclear`), the per-sensor band renaming tables, the radiometric
    rescaling (`rescale_l8`, `rescale_l57`) and the merged, time-sorted series of
    Landsat 5, 7 and 8 scenes (`LandsatSR`). Images are modelled pixel by pixel:
    every band value carries its own mask flag, as Earth Engine images do. */
module Landsat {
  import opened Common

  /** One band value at one pixel; `valid == false` means masked out. */
  datatype Sample<T> = Sample(value: T, valid: bool)

  /** A scene: its pixels, its copied (non-system) properties, and its
      `system:time_start` in milliseconds. */
  datatype Scene<P> = Scene(pixels: seq<P>, properties: map<string, string>, timeStart: int)

  /** A pixel of a scene as delivered, band name to raw digital number. */
  type RawPixel = map<string, Sample<int>>

  /** A pixel after rescaling: six reflectances, a brightness temperature, and the QA word. */
  datatype ScaledPixel = ScaledPixel(optical: seq<Sample<real>>, thermal: Sample<real>, qa: Sample<int>)

  // ---------------------------------------------------------------------------
  // Pixel QA (bit 3 cloud shadow, bit 4 snow, bit 5 cloud; bits 0-2 fill, clear
  // and water are not consulted), as in the Pixel QA table of the USGS Landsat
  // 4-7 C1 LEDAPS and Landsat 8 C1 LaSRC Surface Reflectance Product Guides.

  function Pow2(k: nat): (r: nat)
    ensures r >= 1
  {
    if k == 0 then 1 else 2 * Pow2(k - 1)
  }

  /** `qa & (1 << k) != 0`, for any integer in two's complement. */
  predicate Bit(qa: int, k: nat) { (qa / Pow2(k)) % 2 == 1 }

  /** The three tests `qa.bitwiseAnd(1 << k).eq(0)` for k = 3, 4, 5 all pass. */
  predicate QaClear(qa: int) { !Bit(qa, 3) && !Bit(qa, 4) && !Bit(qa, 5) }

  /** A pixel is clear exactly when bits 3 to 5 taken together are zero. */
  lemma QaClearIsBits3To5Zero(qa: int)
    ensures QaClear(qa) <==> (qa / 8) % 8 == 0
  {
    var q := qa / 8;
    assert qa / 16 == q / 2 && qa / 32 == q / 4;
    assert q % 8 == q % 2 + 2 * ((q / 2) % 2) + 4 * ((q / 4) % 2);
  }

  /** Changing bits 0-2 (fill, clear, water) never changes the verdict. */
  lemma QaLowBitsIgnored(qa: int, low: int)
    requires 0 <= low < 8
    ensures QaClear(8 * (qa / 8) + low) == QaClear(qa)
  {
    QaClearIsBits3To5Zero(qa);
    QaClearIsBits3To5Zero(8 * (qa / 8) + low);
    assert (8 * (qa / 8) + low) / 8 == qa / 8;
  }

  /** Water only (0b000100) stays valid; cloud shadow plus cloud (0b101000) is masked. */
  lemma QaExamples()
    ensures QaClear(4)
    ensures !QaClear(40)
  {
    assert Pow2(3) == 8 && Pow2(4) == 16 && Pow2(5) == 32;
  }

  /** `updateMask(m)`: the mask can only be narrowed. */
  function UpdateMask<T>(s: Sample<T>, keep: bool): Sample<T>
  {
    Sample(s.value, s.valid && keep)
  }

  /** `mask_qaclear` at one pixel: every band, the QA band included, is masked
      where the QA word is itself masked or flags cloud shadow, snow or cloud. */
  function MaskQaClear(p: ScaledPixel): (r: ScaledPixel)
    ensures |r.optical| == |p.optical|
    ensures forall b :: 0 <= b < |p.optical| ==>
              r.optical[b].value == p.optical[b].value &&
              (r.optical[b].valid <==> p.optical[b].valid && p.qa.valid && QaClear(p.qa.value))
    ensures r.thermal.value == p.thermal.value
    ensures r.thermal.valid <==> p.thermal.valid && p.qa.valid && QaClear(p.qa.value)
    ensures r.qa.value == p.qa.value
    ensures r.qa.valid <==> p.qa.valid && QaClear(p.qa.value)
  {
    var keep := p.qa.valid && QaClear(p.qa.value);
    ScaledPixel(seq(|p.optical|, b requires 0 <= b < |p.optical| => UpdateMask(p.optical[b], keep)),
                UpdateMask(p.thermal, keep), UpdateMask(p.qa, keep))
  }

  /** `mask_qaclear` on a whole scene; properties and time are kept. */
  function MaskQaClearScene(img: Scene<ScaledPixel>): (r: Scene<ScaledPixel>)
    ensures |r.pixels| == |img.pixels|
    ensures r.properties == img.properties && r.timeStart == img.timeStart
    ensures forall i :: 0 <= i < |img.pixels| ==> r.pixels[i] == MaskQaClear(img.pixels[i])
  {
    Scene(seq(|img.pixels|, i requires 0 <= i < |img.pixels| => MaskQaClear(img.pixels[i])),
          img.properties, img.timeStart)
  }

  /** Every valid sample after masking was valid before: the mask only narrows. */
  predicate Narrower(a: ScaledPixel, b: ScaledPixel)
  {
    |a.optical| == |b.optical| &&
    (forall k :: 0 <= k < |a.optical| ==> a.optical[k].value == b.optical[k].value && (a.optical[k].valid ==> b.optical[k].valid)) &&
    a.thermal.value == b.thermal.value && (a.thermal.valid ==> b.thermal.valid) &&
    a.qa.value == b.qa.value && (a.qa.valid ==> b.qa.valid)
  }

  lemma MaskQaClearNarrows(p: ScaledPixel)
    ensures Narrower(MaskQaClear(p), p)
  {
  }

  /** Masking twice is masking once. */
  lemma MaskQaClearIdempotent(p: ScaledPixel)
    ensures MaskQaClear(MaskQaClear(p)) == MaskQaClear(p)
  {
    var once := MaskQaClear(p);
    var twice := MaskQaClear(once);
    assert twice.optical == once.optical;
  }

  // ---------------------------------------------------------------------------
  // Band tables: positional renaming onto one canonical list.

  const L57_SR_ORIG_NAMES: seq<string> := ["B1", "B2", "B3", "B4", "B5", "B7", "B6", "pixel_qa"]
  const L8_SR_ORIG_NAMES: seq<string> := ["B2", "B3", "B4", "B5", "B6", "B7", "B10", "pixel_qa"]
  const NEW_NAMES: seq<string> := ["BLUE", "GREEN", "RED", "NIR", "SWIR1", "SWIR2", "TEMP1", "pixel_qa"]

  predicate Distinct<T(==)>(s: seq<T>) { forall i, j :: 0 <= i < j < |s| ==> s[i] != s[j] }

  predicate HasBands(p: RawPixel, names: seq<string>) { forall i :: 0 <= i < |names| ==> names[i] in p }

  /** Both source lists have the canonical list's length and distinct names,
      and they put the thermal band (L5/7 `B6`, L8 `B10`) on `TEMP1`. */
  lemma BandTablesAligned()
    ensures |L57_SR_ORIG_NAMES| == |L8_SR_ORIG_NAMES| == |NEW_NAMES| == 8
    ensures Distinct(L57_SR_ORIG_NAMES) && Distinct(L8_SR_ORIG_NAMES) && Distinct(NEW_NAMES)
    ensures L57_SR_ORIG_NAMES[6] == "B6" && L8_SR_ORIG_NAMES[6] == "B10" && NEW_NAMES[6] == "TEMP1"
  {
  }

  /** `select(orig, new)`: keeps the bands named in `orig`, renamed position by position. */
  function SelectRename(p: RawPixel, orig: seq<string>, renamed: seq<string>): (r: RawPixel)
    requires |orig| == |renamed| && Distinct(renamed) && HasBands(p, orig)
    ensures r.Keys == set i | 0 <= i < |renamed| :: renamed[i]
    ensures forall i :: 0 <= i < |renamed| ==> r[renamed[i]] == p[orig[i]]
  {
    map i | 0 <= i < |renamed| :: renamed[i] := p[orig[i]]
  }

  /** Renaming either sensor's bands yields exactly the canonical band set, and
      `TEMP1` (position 6) is L5/7 `B6` or L8 `B10`. */
  lemma RenamedBandsCanonical(p: RawPixel, q: RawPixel)
    requires HasBands(p, L57_SR_ORIG_NAMES) && HasBands(q, L8_SR_ORIG_NAMES)
    ensures SelectRename(p, L57_SR_ORIG_NAMES, NEW_NAMES).Keys == SelectRename(q, L8_SR_ORIG_NAMES, NEW_NAMES).Keys
    ensures HasBands(SelectRename(p, L57_SR_ORIG_NAMES, NEW_NAMES), NEW_NAMES)
    ensures SelectRename(p, L57_SR_ORIG_NAMES, NEW_NAMES)[NEW_NAMES[6]] == p[L57_SR_ORIG_NAMES[6]]
    ensures SelectRename(q, L8_SR_ORIG_NAMES, NEW_NAMES)[NEW_NAMES[6]] == q[L8_SR_ORIG_NAMES[6]]
  {
    BandTablesAligned();
  }

  // ---------------------------------------------------------------------------
  // Rescaling.

  function ClampInt(x: int, lo: int, hi: int): int
    requires lo <= hi
  {
    if x < lo then lo else if x > hi then hi else x
  }

  /** An optical band: negative values are masked, values above 10000 are
      clamped to 10000, and the result is scaled by 0.0001. */
  function RescaleOptical(s: Sample<int>): (r: Sample<real>)
    ensures r.valid <==> s.valid && s.value >= 0
    ensures 0.0 <= r.value <= 1.0
    ensures 0 <= s.value <= 10000 ==> r.value * 10000.0 == s.value as real
    ensures s.value > 10000 ==> r.value == 1.0
  {
    UpdateMask(Sample(ClampInt(s.value, 0, 10000) as real * 0.0001, s.valid), s.value >= 0)
  }

  /** The thermal band is scaled by 0.1 to give Kelvin; its mask is kept. */
  function RescaleThermal(s: Sample<int>): (r: Sample<real>)
    ensures r.valid == s.valid
    ensures r.value * 10.0 == s.value as real
  {
    Sample(s.value as real * 0.1, s.valid)
  }

  /** One pixel of `cat([opt, therm, qa])`: the six optical bands (canonical
      positions 0-5), `TEMP1` (position 6) and `pixel_qa` (position 7). */
  function RescalePixel(p: RawPixel): (r: ScaledPixel)
    requires HasBands(p, NEW_NAMES)
    ensures |r.optical| == 6
    ensures forall b :: 0 <= b < 6 ==> r.optical[b] == RescaleOptical(p[NEW_NAMES[b]])
    ensures r.thermal == RescaleThermal(p[NEW_NAMES[6]])
    ensures r.qa == p[NEW_NAMES[7]]
  {
    ScaledPixel(seq(6, b requires 0 <= b < 6 => RescaleOptical(p[NEW_NAMES[b]])),
                RescaleThermal(p[NEW_NAMES[6]]), p[NEW_NAMES[7]])
  }

  predicate AllHaveBands(img: Scene<RawPixel>, names: seq<string>)
  {
    forall i :: 0 <= i < |img.pixels| ==> HasBands(img.pixels[i], names)
  }

  /** `rescale_l8`: every pixel rescaled; the properties are copied and
      `system:time_start` is set again explicitly. */
  function RescaleL8(img: Scene<RawPixel>): (r: Scene<ScaledPixel>)
    requires AllHaveBands(img, NEW_NAMES)
    ensures |r.pixels| == |img.pixels|
    ensures r.properties == img.properties && r.timeStart == img.timeStart
    ensures forall i :: 0 <= i < |img.pixels| ==> r.pixels[i] == RescalePixel(img.pixels[i])
  {
    Scene(seq(|img.pixels|, i requires 0 <= i < |img.pixels| => RescalePixel(img.pixels[i])),
          img.properties, img.timeStart)
  }

  /** `rescale_l57`: the same expression chain as `rescale_l8`. */
  function RescaleL57(img: Scene<RawPixel>): (r: Scene<ScaledPixel>)
    requires AllHaveBands(img, NEW_NAMES)
    ensures |r.pixels| == |img.pixels|
    ensures r.properties == img.properties && r.timeStart == img.timeStart
    ensures forall i :: 0 <= i < |img.pixels| ==> r.pixels[i] == RescalePixel(img.pixels[i])
  {
    Scene(seq(|img.pixels|, i requires 0 <= i < |img.pixels| => RescalePixel(img.pixels[i])),
          img.properties, img.timeStart)
  }

  lemma RescaleL8EqualsL57(img: Scene<RawPixel>)
    requires AllHaveBands(img, NEW_NAMES)
    ensures RescaleL8(img) == RescaleL57(img)
  {
  }

  /** Every still-valid reflectance lies in [0, 1] and came from a valid,
      non-negative raw value; temperature is a tenth of the raw value; QA is untouched. */
  lemma RescaledPixelRanges(p: RawPixel, b: nat)
    requires HasBands(p, NEW_NAMES) && b < 6
    ensures var r := RescalePixel(p);
      && 0.0 <= r.optical[b].value <= 1.0
      && (r.optical[b].valid <==> p[NEW_NAMES[b]].valid && p[NEW_NAMES[b]].value >= 0)
      && (0 <= p[NEW_NAMES[b]].value <= 10000 ==> r.optical[b].value * 10000.0 == p[NEW_NAMES[b]].value as real)
      && (p[NEW_NAMES[b]].value > 10000 ==> r.optical[b].value == 1.0)
      && r.thermal.value * 10.0 == p[NEW_NAMES[6]].value as real
      && r.qa == p[NEW_NAMES[7]]
  {
  }

  // ---------------------------------------------------------------------------
  // The merged mosaic.

  /** `select(orig, NEW_NAMES)` on every pixel of a scene. */
  function SelectRenameScene(img: Scene<RawPixel>, orig: seq<string>): (r: Scene<RawPixel>)
    requires |orig| == |NEW_NAMES| && AllHaveBands(img, orig)
    ensures AllHaveBands(r, NEW_NAMES)
    ensures |r.pixels| == |img.pixels| && r.properties == img.properties && r.timeStart == img.timeStart
    ensures forall i :: 0 <= i < |img.pixels| ==> r.pixels[i] == SelectRename(img.pixels[i], orig, NEW_NAMES)
  {
    BandTablesAligned();
    Scene(seq(|img.pixels|, i requires 0 <= i < |img.pixels| => SelectRename(img.pixels[i], orig, NEW_NAMES)),
          img.properties, img.timeStart)
  }

  predicate SortedByTime<P>(s: seq<Scene<P>>)
  {
    forall i, j :: 0 <= i < j < |s| ==> s[i].timeStart <= s[j].timeStart
  }

  /** Inserts `x` before the first scene that is not earlier than it. */
  function InsertByTime<P(==)>(x: Scene<P>, s: seq<Scene<P>>): (r: seq<Scene<P>>)
    ensures multiset(r) == multiset(s) + multiset{x}
    ensures |r| == |s| + 1
    ensures r[0] == x || (s != [] && r[0] == s[0])
  {
    if s == [] then [x]
    else if x.timeStart <= s[0].timeStart then [x] + s
    else
      assert s == [s[0]] + s[1..];
      [s[0]] + InsertByTime(x, s[1..])
  }

  lemma {:induction false} InsertByTimeSorted<P>(x: Scene<P>, s: seq<Scene<P>>)
    requires SortedByTime(s)
    ensures SortedByTime(InsertByTime(x, s))
  {
    if s != [] && x.timeStart > s[0].timeStart {
      var rest := InsertByTime(x, s[1..]);
      InsertByTimeSorted(x, s[1..]);
      assert s[0].timeStart <= rest[0].timeStart;
      assert InsertByTime(x, s) == [s[0]] + rest;
    }
  }

  /** `sort('system:time_start')`: ascending acquisition time, nothing added or dropped. */
  function SortByTime<P(==)>(s: seq<Scene<P>>): (r: seq<Scene<P>>)
    ensures SortedByTime(r)
    ensures multiset(r) == multiset(s)
  {
    if s == [] then []
    else
      assert s == [s[0]] + s[1..];
      InsertByTimeSorted(s[0], SortByTime(s[1..]));
      InsertByTime(s[0], SortByTime(s[1..]))
  }

  /** The mosaic builder's fields. The three collections are given already
      filtered by date range and region (`init_coll`, a remote query). */
  datatype LandsatSR = LandsatSR(
    start: string, end: string,
    l8: seq<Scene<ScaledPixel>>, l7: seq<Scene<ScaledPixel>>, l5: seq<Scene<ScaledPixel>>,
    merged: seq<Scene<ScaledPixel>>)

  function PrepareL8(c: seq<Scene<RawPixel>>): (r: seq<Scene<ScaledPixel>>)
    requires forall k :: 0 <= k < |c| ==> AllHaveBands(c[k], L8_SR_ORIG_NAMES)
    ensures |r| == |c|
    ensures forall k :: 0 <= k < |c| ==> r[k] == RescaleL8(SelectRenameScene(c[k], L8_SR_ORIG_NAMES))
  {
    BandTablesAligned();
    seq(|c|, k requires 0 <= k < |c| => RescaleL8(SelectRenameScene(c[k], L8_SR_ORIG_NAMES)))
  }

  function PrepareL57(c: seq<Scene<RawPixel>>): (r: seq<Scene<ScaledPixel>>)
    requires forall k :: 0 <= k < |c| ==> AllHaveBands(c[k], L57_SR_ORIG_NAMES)
    ensures |r| == |c|
    ensures forall k :: 0 <= k < |c| ==> r[k] == RescaleL57(SelectRenameScene(c[k], L57_SR_ORIG_NAMES))
  {
    BandTablesAligned();
    seq(|c|, k requires 0 <= k < |c| => RescaleL57(SelectRenameScene(c[k], L57_SR_ORIG_NAMES)))
  }

  /** `LandsatSR(start, end)`: each sensor renamed and rescaled, then
      `l5.merge(l7).merge(l8).sort('system:time_start')`, without deduplication. */
  function NewLandsatSR(start: string, end: string, l5src: seq<Scene<RawPixel>>,
                        l7src: seq<Scene<RawPixel>>, l8src: seq<Scene<RawPixel>>): (r: LandsatSR)
    requires forall k :: 0 <= k < |l8src| ==> AllHaveBands(l8src[k], L8_SR_ORIG_NAMES)
    requires forall k :: 0 <= k < |l7src| ==> AllHaveBands(l7src[k], L57_SR_ORIG_NAMES)
    requires forall k :: 0 <= k < |l5src| ==> AllHaveBands(l5src[k], L57_SR_ORIG_NAMES)
    ensures SortedByTime(r.merged)
    ensures multiset(r.merged) == multiset(r.l5 + r.l7 + r.l8)
    ensures |r.merged| == |l5src| + |l7src| + |l8src|
    ensures r.start == start && r.end == end
    ensures r.l8 == PrepareL8(l8src) && r.l7 == PrepareL57(l7src) && r.l5 == PrepareL57(l5src)
    ensures |r.l8| == |l8src| && |r.l7| == |l7src| && |r.l5| == |l5src|
    ensures forall k :: 0 <= k < |l8src| ==> r.l8[k].timeStart == l8src[k].timeStart
    ensures forall k :: 0 <= k < |l7src| ==> r.l7[k].timeStart == l7src[k].timeStart
    ensures forall k :: 0 <= k < |l5src| ==> r.l5[k].timeStart == l5src[k].timeStart
  {
    var l8 := PrepareL8(l8src);
    var l7 := PrepareL57(l7src);
    var l5 := PrepareL57(l5src);
    var merged := SortByTime(l5 + l7 + l8);
    assert |merged| == |multiset(merged)| == |multiset(l5 + l7 + l8)|;
    LandsatSR(start, end, l8, l7, l5, merged)
  }
}
