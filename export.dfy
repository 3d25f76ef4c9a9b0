/** Turning survey tables into Earth Engine features (`df_to_fc`) and choosing
    the TFRecord export's property selectors and destination (`tfexporter`).
    The export itself and `task.start()` are remote calls and are not modelled;
    the model stops at the description of the task to start. */
module Export {
  import opened Common
  import opened Seqs

  /** A point geometry; Earth Engine takes its coordinates as (lon, lat). */
  datatype Point<V> = Point(lon: V, lat: V)

  /** A feature: a point and the row's properties, every column included. */
  datatype Feature<V> = Feature(geometry: Point<V>, properties: map<string, V>)

  /** The feature one data-frame row becomes. */
  function FeatureOf<V>(row: map<string, V>, latCol: string, lonCol: string): (f: Feature<V>)
    requires latCol in row && lonCol in row
    ensures f.geometry.lat == row[latCol] && f.geometry.lon == row[lonCol]
    ensures f.properties == row
  {
    Feature(Point(row[lonCol], row[latCol]), row)
  }

  /** `df_to_fc`: one feature per row, in row order. A frame without the latitude
      or longitude column fails with KeyError at its first row, so an empty
      frame never fails. Every row of a frame has the frame's columns. */
  method DfToFc<V>(columns: set<string>, rows: seq<map<string, V>>, latCol: string, lonCol: string)
    returns (r: Result<seq<Feature<V>>>)
    requires forall i :: 0 <= i < |rows| ==> rows[i].Keys == columns
    ensures r.Err? <==> |rows| > 0 && (latCol !in columns || lonCol !in columns)
    ensures r.Err? ==> r.error == KeyError
    ensures r.Ok? ==> |r.value| == |rows|
    ensures r.Ok? ==> forall i :: 0 <= i < |rows| ==> r.value[i] == FeatureOf(rows[i], latCol, lonCol)
  {
    var features: seq<Feature<V>> := [];
    var i := 0;
    while i < |rows|
      invariant 0 <= i <= |rows|
      invariant i > 0 ==> latCol in columns && lonCol in columns
      invariant |features| == i
      invariant forall j :: 0 <= j < i ==> features[j] == FeatureOf(rows[j], latCol, lonCol)
    {
      var props := rows[i];
      if lonCol !in props || latCol !in props {
        return Err(KeyError);
      }
      features := features + [FeatureOf(props, latCol, lonCol)];
      i := i + 1;
    }
    return Ok(features);
  }

  /** The two destinations, with the arguments `tfexporter` passes; the file
      format is always TFRecord. `None` selectors export every property. */
  datatype ExportTask =
    | ToCloudStorage(description: string, bucket: Option<string>, fileNamePrefix: string,
                     fileFormat: string, selectors: Option<seq<string>>)
    | ToDrive(description: string, folder: string, fileNamePrefix: string,
              fileFormat: string, selectors: Option<seq<string>>)

  /** `ee.List.removeAll`: every occurrence of every listed name is dropped. */
  function RemoveAll(names: seq<string>, drop: seq<string>): (r: seq<string>)
    ensures IsSubseq(r, names)
    ensures forall i :: 0 <= i < |r| ==> r[i] !in drop
    ensures forall i :: 0 <= i < |names| && names[i] !in drop ==> names[i] in r
    ensures forall x :: x !in drop ==> multiset(r)[x] == multiset(names)[x]
  {
    var dropped := x => x in drop;
    FilterIsSubseq(names, dropped);
    FilterRejectPartition(names, dropped);
    var r := Reject(names, dropped);
    assert forall x :: x !in drop ==> x !in Filter(names, dropped);
    r
  }

  /** The selectors the export uses. With drop-selectors, the given selectors (or,
      when there are none, the first record's property names) minus every dropped
      name, every other name kept as often as it occurs; without them, the
      selectors as given. */
  function EffectiveSelectors(firstPropertyNames: seq<string>, selectors: Option<seq<string>>,
                              dropselectors: Option<seq<string>>): (r: Option<seq<string>>)
    ensures dropselectors.None? ==> r == selectors
    ensures dropselectors.Some? ==> r.Some?
    ensures dropselectors.Some? ==>
              var base := if selectors.Some? then selectors.value else firstPropertyNames;
              IsSubseq(r.value, base) &&
              (forall i :: 0 <= i < |r.value| ==> r.value[i] !in dropselectors.value) &&
              (forall i :: 0 <= i < |base| && base[i] !in dropselectors.value ==> base[i] in r.value) &&
              (forall x :: x !in dropselectors.value ==> multiset(r.value)[x] == multiset(base)[x])
  {
    if dropselectors.Some? then
      var base := if selectors.Some? then selectors.value else firstPropertyNames;
      Some(RemoveAll(base, dropselectors.value))
    else
      selectors
  }

  /** `tfexporter`: 'gcs' exports to `<prefix>/<fname>` in the bucket, 'drive' to
      file `fname` in folder `prefix`; both are described by `fname`. Any other
      destination fails with ValueError, before a task is started. */
  function Tfexporter(firstPropertyNames: seq<string>, target: string, prefix: string, fname: string,
                      selectors: Option<seq<string>>, dropselectors: Option<seq<string>>,
                      bucket: Option<string>): (r: Result<ExportTask>)
    ensures r.Err? <==> target != "gcs" && target != "drive"
    ensures r.Err? ==> r.error.ValueError?
    ensures r.Ok? ==> r.value.description == fname && r.value.fileFormat == "TFRecord"
    ensures r.Ok? ==> r.value.selectors == EffectiveSelectors(firstPropertyNames, selectors, dropselectors)
    ensures target == "gcs" ==>
              (r.Ok? && r.value.ToCloudStorage? &&
               r.value.bucket == bucket && r.value.fileNamePrefix == prefix + "/" + fname)
    ensures target == "drive" ==>
              (r.Ok? && r.value.ToDrive? && r.value.folder == prefix && r.value.fileNamePrefix == fname)
  {
    var sel := EffectiveSelectors(firstPropertyNames, selectors, dropselectors);
    if target == "gcs" then
      Ok(ToCloudStorage(fname, bucket, prefix + "/" + fname, "TFRecord", sel))
    else if target == "drive" then
      Ok(ToDrive(fname, prefix, fname, "TFRecord", sel))
    else
      Err(ValueError("export \"" + target + "\" is not one of [\"gcs\", \"drive\"]"))
  }

  /** Dropping names that are not there, or dropping nothing, keeps the list. */
  lemma {:induction false} RemoveAllNothing(names: seq<string>, drop: seq<string>)
    requires forall i :: 0 <= i < |names| ==> names[i] !in drop
    ensures RemoveAll(names, drop) == names
  {
    if names != [] {
      RemoveAllNothing(names[1..], drop);
      assert names[0] !in drop;
      assert Reject(names, x => x in drop) == [names[0]] + Reject(names[1..], x => x in drop);
    }
  }

  /** Dropping the same names twice is dropping them once. */
  lemma RemoveAllIdempotent(names: seq<string>, drop: seq<string>)
    ensures RemoveAll(RemoveAll(names, drop), drop) == RemoveAll(names, drop)
  {
    var once := RemoveAll(names, drop);
    RemoveAllNothing(once, drop);
  }
}
