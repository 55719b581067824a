/**
 * The band loaders: `load_MODIS1KMband`, which composes band lookup,
 * plane selection, scaling lookup and masking, and the older
 * `load_MODISband_old`, which finds the band by its label in the
 * comma-separated `band_names` attribute.
 */
module BandLoader {
  import opened Wrappers
  import opened Seqs
  import opened SD
  import opened BandLocator
  import opened ScalingResolver
  import opened InvalidityMasker

  /** `astype(np.double)` of a plane: a fresh array of numeric cells. */
  method CellsOf(p: Plane) returns (a: array2<Cell>)
    requires Rectangular(p)
    ensures fresh(a) && a.Length0 == |p| && a.Length1 == Width(p)
    ensures forall i, j :: 0 <= i < a.Length0 && 0 <= j < a.Length1 ==> a[i, j] == Val(p[i][j])
  {
    a := new Cell[|p|, Width(p)]((i, j) requires 0 <= i < |p| && 0 <= j < Width(p) => Val(p[i][j]));
  }

  /**
   * `hdf.select(FIELD)[:][INDEX, :, :]` after `locate_band`: the location
   * of the band and the plane of its field at that index.
   */
  function SelectBand(f: SDFile, band: int): (r: Result<(Location, Plane), Error>)
    ensures Locate(f, band).Err? ==> r == Err(Locate(f, band).error)
    ensures r.Ok? <==>
      && Locate(f, band).Ok?
      && Select(f, Locate(f, band).value.field).Ok?
      && Select(f, Locate(f, band).value.field).value.data.Cube?
      && Locate(f, band).value.index < |Select(f, Locate(f, band).value.field).value.data.planes|
    ensures r.Ok? ==>
      && Locate(f, band) == Ok(r.value.0)
      && Select(f, r.value.0.field).Ok?
      && var ds := Select(f, r.value.0.field).value;
      ds.data.Cube? && r.value.0.index < |ds.data.planes| && r.value.1 == ds.data.planes[r.value.0.index]
  {
    var loc :- Locate(f, band);
    var ds :- Select(f, loc.field);
    var plane :- PlaneAt(ds, loc.index);
    Ok((loc, plane))
  }

  lemma SelectedPlaneRectangular(f: SDFile, band: int)
    requires WellFormed(f) && SelectBand(f, band).Ok?
    ensures Rectangular(SelectBand(f, band).value.1)
  {
    var loc := SelectBand(f, band).value.0;
    var d := IndexOf(Names(f), loc.field);
    assert WellFormedArray(f.datasets[d].data);
  }

  /**
   * `load_MODIS1KMband`: the plane of the requested band; with
   * `applyScaling`, calibrated and masked with the scaling record of the
   * same field and index, otherwise returned as read.
   */
  method LoadMODIS1KMBand(f: SDFile, band: int, applyScaling: bool, applyMask: bool)
    returns (r: Result<MaskedBand, Error>)
    requires WellFormed(f)
    ensures SelectBand(f, band).Err? ==> r == Err(SelectBand(f, band).error)
    ensures SelectBand(f, band).Ok? && !applyScaling ==> r.Ok?
    ensures SelectBand(f, band).Ok? && applyScaling ==>
      var loc := SelectBand(f, band).value.0;
      && (r.Ok? <==> GrabScaling(f, loc.field, loc.index).Ok?)
      && (r.Err? ==> r == Err(GrabScaling(f, loc.field, loc.index).error))
    ensures r.Ok? ==> fresh(r.value.data) && (r.value.mask.Some? ==> fresh(r.value.mask.value))
    ensures r.Ok? ==>
      var plane := SelectBand(f, band).value.1;
      r.value.data.Length0 == |plane| && r.value.data.Length1 == Width(plane)
    ensures r.Ok? && !applyScaling ==>
      var plane := SelectBand(f, band).value.1;
      && r.value.mask.None?
      && forall i, j :: 0 <= i < |plane| && 0 <= j < Width(plane) ==> r.value.data[i, j] == Val(plane[i][j])
    ensures r.Ok? && applyScaling ==>
      var (loc, plane) := SelectBand(f, band).value;
      var s := GrabScaling(f, loc.field, loc.index).value;
      && (forall i, j :: 0 <= i < |plane| && 0 <= j < Width(plane) ==>
            r.value.data[i, j] == Calibrate(Val(plane[i][j]), s))
      && (r.value.mask.Some? <==> applyMask)
      && (r.value.mask.Some? ==>
            r.value.mask.value.Length0 == |plane| && r.value.mask.value.Length1 == Width(plane)
            && forall i, j :: 0 <= i < |plane| && 0 <= j < Width(plane) ==>
                 (r.value.mask.value[i, j] <==> r.value.data[i, j].NoData?))
  {
    var loc :- LocateBand(f, band);
    var ds :- Select(f, loc.field);
    var plane :- PlaneAt(ds, loc.index);
    SelectedPlaneRectangular(f, band);
    var bandData := CellsOf(plane);
    if applyScaling {
      var s :- GrabScaling(f, loc.field, loc.index);
      var scaled := MaskBadData(bandData, s, applyMask);
      r := Ok(scaled);
    } else {
      r := Ok(MaskedBand(bandData, None));
    }
  }

  /** The attribute family named by the `refrad` argument, if it names one. */
  function QuantityNamed(refrad: string): (q: Option<Quantity>)
    ensures q == Some(Reflectance) <==> refrad == "reflectance"
    ensures q == Some(Radiance) <==> refrad == "radiance"
  {
    if refrad == "reflectance" then Some(Reflectance)
    else if refrad == "radiance" then Some(Radiance)
    else None
  }

  /** The `k`-th scale, then the `k`-th offset, of a family. */
  function ScaleOffset(ds: Dataset, q: Quantity, k: nat): (r: Result<(real, real), Error>)
    ensures r.Ok? <==> HasNumbers(ds, ScalesName(q), k + 1) && HasNumbers(ds, OffsetsName(q), k + 1)
    ensures r.Ok? ==> r.value == (Numbers(ds, ScalesName(q))[k], Numbers(ds, OffsetsName(q))[k])
  {
    var scales :- GetNumbers(ds, ScalesName(q));
    var scale :- At(scales, k);
    var offsets :- GetNumbers(ds, OffsetsName(q));
    var offset :- At(offsets, k);
    Ok((scale, offset))
  }

  /** `valid_range[0]`, `valid_range[1]` and `_FillValue`. */
  function RangeAndFill(ds: Dataset): (r: Result<(real, real, real), Error>)
    ensures r.Ok? <==>
      HasNumbers(ds, "valid_range", 2) && HasNumbers(ds, "_FillValue", 1) && |Numbers(ds, "_FillValue")| == 1
    ensures r.Ok? ==>
      r.value == (Numbers(ds, "valid_range")[0], Numbers(ds, "valid_range")[1], Numbers(ds, "_FillValue")[0])
  {
    var range :- GetNumbers(ds, "valid_range");
    var validmin :- At(range, 0);
    var validmax :- At(range, 1);
    var fillval :- GetScalar(ds, "_FillValue");
    Ok((validmin, validmax, fillval))
  }

  /** What `load_MODISband_old` selects: the band's position, its plane and its scaling record. */
  datatype LegacySelection = LegacySelection(index: nat, plane: Plane, scaling: Scaling)

  /** The dataset exists, its `band_names` text lists the label, and its 3-D data reach the label's position. */
  predicate LegacyPlaneFound(f: SDFile, dataset: string, bandLabel: string)
  {
    && Select(f, dataset).Ok?
    && var ds := Select(f, dataset).value;
    && GetText(ds, "band_names").Ok?
    && var pieces := Split(GetText(ds, "band_names").value, ',');
    && bandLabel in pieces
    && ds.data.Cube? && IndexOf(pieces, bandLabel) < |ds.data.planes|
  }

  /**
   * The scaling record of `load_MODISband_old` for the band at position
   * `k`: the `k`-th scale and offset of the family `refrad` names, then the
   * valid range and fill value. An unknown `refrad` is found out only
   * after the valid range and fill value are read.
   */
  function LegacyScaling(ds: Dataset, k: nat, refrad: string): (r: Result<Scaling, Error>)
    ensures r.Ok? <==>
      && QuantityNamed(refrad).Some?
      && HasNumbers(ds, ScalesName(QuantityNamed(refrad).value), k + 1)
      && HasNumbers(ds, OffsetsName(QuantityNamed(refrad).value), k + 1)
      && RangeAndFill(ds).Ok?
    ensures QuantityNamed(refrad).None? && RangeAndFill(ds).Ok? ==> r == Err(UnknownQuantity(refrad))
    ensures r.Ok? ==>
      var q := QuantityNamed(refrad).value;
      && r.value.scale == Numbers(ds, ScalesName(q))[k]
      && r.value.offset == Numbers(ds, OffsetsName(q))[k]
      && r.value.validmin == Numbers(ds, "valid_range")[0]
      && r.value.validmax == Numbers(ds, "valid_range")[1]
      && r.value.fillval == Numbers(ds, "_FillValue")[0]
  {
    match QuantityNamed(refrad)
    case None =>
      var _ :- RangeAndFill(ds);
      Err(UnknownQuantity(refrad))
    case Some(q) =>
      var (scale, offset) :- ScaleOffset(ds, q, k);
      var (validmin, validmax, fillval) :- RangeAndFill(ds);
      Ok(Scaling(validmin, validmax, fillval, scale, offset))
  }

  /**
   * The lookups of `load_MODISband_old`, in the order the source makes
   * them: the band's position is the first position of its label in
   * `band_names.split(",")`, and that position selects the plane and the
   * scaling record.
   */
  function LegacySelect(f: SDFile, dataset: string, bandLabel: string, refrad: string)
    : (r: Result<LegacySelection, Error>)
    ensures Select(f, dataset).Err? ==> r == Err(DatasetNotFound(dataset))
    ensures
      (Select(f, dataset).Ok? && GetText(Select(f, dataset).value, "band_names").Ok?
       && bandLabel !in Split(GetText(Select(f, dataset).value, "band_names").value, ',')) ==>
      r == Err(LabelNotFound(bandLabel))
    ensures QuantityNamed(refrad).None? ==> r.Err?
    ensures r.Ok? <==>
      && LegacyPlaneFound(f, dataset, bandLabel)
      && var ds := Select(f, dataset).value;
      LegacyScaling(ds, IndexOf(Split(GetText(ds, "band_names").value, ','), bandLabel), refrad).Ok?
    ensures LegacyPlaneFound(f, dataset, bandLabel) ==>
      var ds := Select(f, dataset).value;
      var k := IndexOf(Split(GetText(ds, "band_names").value, ','), bandLabel);
      LegacyScaling(ds, k, refrad).Err? ==> r == Err(LegacyScaling(ds, k, refrad).error)
    ensures r.Ok? ==>
      && Select(f, dataset).Ok?
      && var ds := Select(f, dataset).value;
      && GetText(ds, "band_names").Ok?
      && var pieces := Split(GetText(ds, "band_names").value, ',');
      && r.value.index < |pieces| && pieces[r.value.index] == bandLabel && bandLabel !in pieces[..r.value.index]
      && ds.data.Cube? && r.value.index < |ds.data.planes| && r.value.plane == ds.data.planes[r.value.index]
      && r.value.scaling == LegacyScaling(ds, r.value.index, refrad).value
  {
    var ds :- Select(f, dataset);
    var names :- GetText(ds, "band_names");
    var pieces := Split(names, ',');
    if bandLabel !in pieces then
      Err(LabelNotFound(bandLabel))
    else
      var k := IndexOf(pieces, bandLabel);
      var plane :- PlaneAt(ds, k);
      var scaling :- LegacyScaling(ds, k, refrad);
      Ok(LegacySelection(k, plane, scaling))
  }

  lemma LegacyPlaneRectangular(f: SDFile, dataset: string, bandLabel: string, refrad: string)
    requires WellFormed(f) && LegacySelect(f, dataset, bandLabel, refrad).Ok?
    ensures Rectangular(LegacySelect(f, dataset, bandLabel, refrad).value.plane)
  {
    var d := IndexOf(Names(f), dataset);
    assert WellFormedArray(f.datasets[d].data);
  }

  /** Label "2" of "1,2,3" is position 1. */
  lemma LegacyLabelExample()
    ensures Split("1,2,3", ',') == ["1", "2", "3"]
    ensures IndexOf(Split("1,2,3", ','), "2") == 1
  {
    var pieces := ["1", "2", "3"];
    assert Join(pieces, ',') == "1,2,3" by {
      assert Join(pieces[2..], ',') == "3";
      assert Join(pieces[1..], ',') == "2,3";
    }
    SplitJoin(pieces, ',');
  }

  /**
   * `load_MODISband_old`: the selected plane, masked and calibrated with
   * the selected scaling record, always with its mask.
   */
  method LoadMODISBandOld(f: SDFile, dataset: string, bandLabel: string, refrad: string)
    returns (r: Result<MaskedBand, Error>)
    requires WellFormed(f)
    ensures r.Ok? <==> LegacySelect(f, dataset, bandLabel, refrad).Ok?
    ensures r.Err? ==> r == Err(LegacySelect(f, dataset, bandLabel, refrad).error)
    ensures r.Ok? ==> fresh(r.value.data) && r.value.mask.Some? && fresh(r.value.mask.value)
    ensures r.Ok? ==>
      var sel := LegacySelect(f, dataset, bandLabel, refrad).value;
      && r.value.data.Length0 == |sel.plane| && r.value.data.Length1 == Width(sel.plane)
      && (forall i, j :: 0 <= i < |sel.plane| && 0 <= j < Width(sel.plane) ==>
            r.value.data[i, j] == Calibrate(Val(sel.plane[i][j]), sel.scaling))
      && r.value.mask.Some?
      && r.value.mask.value.Length0 == |sel.plane| && r.value.mask.value.Length1 == Width(sel.plane)
      && (forall i, j :: 0 <= i < |sel.plane| && 0 <= j < Width(sel.plane) ==>
            (r.value.mask.value[i, j] <==> r.value.data[i, j].NoData?))
  {
    var sel :- LegacySelect(f, dataset, bandLabel, refrad);
    LegacyPlaneRectangular(f, dataset, bandLabel, refrad);
    var bandData := CellsOf(sel.plane);
    var masked := MaskBadData(bandData, sel.scaling, true);
    r := Ok(masked);
  }
}
