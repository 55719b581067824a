/**
 * Calibration record lookup (`grab_scaling`): the valid range, the fill
 * value and the per-band scale and offset of one data field.
 */
module ScalingResolver {
  import opened Wrappers
  import opened Seqs
  import opened SD

  /** The two attribute families a data field can carry. */
  datatype Quantity = Reflectance | Radiance

  /** The calibration record of one band. */
  datatype Scaling = Scaling(validmin: real, validmax: real, fillval: real, scale: real, offset: real)

  /** The family a field name selects: reflective fields have "Ref" in their names. */
  function FamilyOf(field: string): (q: Quantity)
    ensures q == Reflectance <==> exists i :: OccursAt("Ref", field, i)
  {
    if Contains(field, "Ref") then Reflectance else Radiance
  }

  function ScalesName(q: Quantity): string
  {
    match q
    case Reflectance => "reflectance_scales"
    case Radiance => "radiance_scales"
  }

  function OffsetsName(q: Quantity): string
  {
    match q
    case Reflectance => "reflectance_offsets"
    case Radiance => "radiance_offsets"
  }

  /** A numeric attribute of `ds` holding at least `n` values. */
  predicate HasNumbers(ds: Dataset, attribute: string, n: nat)
  {
    attribute in ds.attrs && ds.attrs[attribute].Num? && |ds.attrs[attribute].values| >= n
  }

  /** The values of a numeric attribute. */
  function Numbers(ds: Dataset, attribute: string): seq<real>
    requires attribute in ds.attrs && ds.attrs[attribute].Num?
  {
    ds.attrs[attribute].values
  }

  /**
   * `grab_scaling`: select the field, unpack `valid_range` into its two
   * bounds, read `_FillValue`, then take the `index`-th scale and offset
   * from the reflectance tables when the field name contains "Ref" and
   * from the radiance tables otherwise.
   */
  function GrabScaling(f: SDFile, field: string, index: nat): (r: Result<Scaling, Error>)
    ensures Select(f, field).Err? ==> r == Err(DatasetNotFound(field))
    ensures r.Ok? <==>
      Select(f, field).Ok?
      && var ds := Select(f, field).value;
      HasNumbers(ds, "valid_range", 2) && |Numbers(ds, "valid_range")| == 2
      && HasNumbers(ds, "_FillValue", 1) && |Numbers(ds, "_FillValue")| == 1
      && HasNumbers(ds, ScalesName(FamilyOf(field)), index + 1)
      && HasNumbers(ds, OffsetsName(FamilyOf(field)), index + 1)
    ensures r.Ok? ==>
      var ds := Select(f, field).value;
      && r.value.validmin == Numbers(ds, "valid_range")[0]
      && r.value.validmax == Numbers(ds, "valid_range")[1]
      && r.value.fillval == Numbers(ds, "_FillValue")[0]
    ensures r.Ok? && Contains(field, "Ref") ==>
      var ds := Select(f, field).value;
      && r.value.scale == Numbers(ds, "reflectance_scales")[index]
      && r.value.offset == Numbers(ds, "reflectance_offsets")[index]
    ensures r.Ok? && !Contains(field, "Ref") ==>
      var ds := Select(f, field).value;
      && r.value.scale == Numbers(ds, "radiance_scales")[index]
      && r.value.offset == Numbers(ds, "radiance_offsets")[index]
  {
    var ds :- Select(f, field);
    var range :- GetNumbers(ds, "valid_range");
    if |range| != 2 then
      Err(MalformedAttribute(field, "valid_range"))
    else
      var fillval :- GetScalar(ds, "_FillValue");
      var q := FamilyOf(field);
      var scales :- GetNumbers(ds, ScalesName(q));
      var offsets :- GetNumbers(ds, OffsetsName(q));
      var scale :- At(scales, index);
      var offset :- At(offsets, index);
      Ok(Scaling(range[0], range[1], fillval, scale, offset))
  }

  /** The three reflective fields take the reflectance tables, the emissive one the radiance tables. */
  lemma FieldFamilies()
    ensures FamilyOf("EV_250_Aggr1km_RefSB") == Reflectance
    ensures FamilyOf("EV_500_Aggr1km_RefSB") == Reflectance
    ensures FamilyOf("EV_1KM_RefSB") == Reflectance
    ensures FamilyOf("EV_1KM_Emissive") == Radiance
  {
    assert OccursAt("Ref", "EV_250_Aggr1km_RefSB", 15);
    assert OccursAt("Ref", "EV_500_Aggr1km_RefSB", 15);
    assert OccursAt("Ref", "EV_1KM_RefSB", 7);
    var emissive := "EV_1KM_Emissive";
    forall i | 0 <= i < |emissive|
      ensures emissive[i] != 'R'
    {
    }
    AbsentWithoutFirstChar(emissive, "Ref");
  }
}
