/**
 * Geolocation loading (`get_MODISgeo`): latitude and longitude grids of
 * a geolocation file, with negative longitudes moved up by 360 degrees.
 */
module GeoLoader {
  import opened Wrappers
  import opened SD

  /** One longitude after `geolon[geolon < 0] += 360`. */
  function Wrap(lon: real): (r: real)
    ensures -360.0 <= lon < 360.0 ==> 0.0 <= r < 360.0
    ensures 0.0 <= lon ==> r == lon
    ensures lon < 0.0 ==> r == lon + 360.0
  {
    if lon < 0.0 then lon + 360.0 else lon
  }

  /** Wrapping a longitude of at least -360 degrees a second time changes nothing. */
  lemma WrapIdempotent(lon: real)
    requires -360.0 <= lon
    ensures Wrap(Wrap(lon)) == Wrap(lon)
  {
  }

  lemma WrapExample()
    ensures Wrap(-10.0) == 350.0 && Wrap(10.0) == 10.0 && Wrap(-180.0) == 180.0
  {
  }

  /** `geolon[geolon < 0] += 360`, in place. */
  method NormaliseLongitudes(lon: array2<real>)
    modifies lon
    ensures forall i, j :: 0 <= i < lon.Length0 && 0 <= j < lon.Length1 ==> lon[i, j] == Wrap(old(lon[i, j]))
  {
    var i := 0;
    while i < lon.Length0
      invariant 0 <= i <= lon.Length0
      invariant forall r, c :: 0 <= r < i && 0 <= c < lon.Length1 ==> lon[r, c] == Wrap(old(lon[r, c]))
      invariant forall r, c :: i <= r < lon.Length0 && 0 <= c < lon.Length1 ==> lon[r, c] == old(lon[r, c])
    {
      var j := 0;
      while j < lon.Length1
        invariant 0 <= j <= lon.Length1
        invariant forall r, c :: 0 <= r < i && 0 <= c < lon.Length1 ==> lon[r, c] == Wrap(old(lon[r, c]))
        invariant forall c :: 0 <= c < j ==> lon[i, c] == Wrap(old(lon[i, c]))
        invariant forall r, c :: i <= r < lon.Length0 && 0 <= c < lon.Length1 && (r > i || c >= j) ==>
          lon[r, c] == old(lon[r, c])
      {
        if lon[i, j] < 0.0 {
          lon[i, j] := lon[i, j] + 360.0;
        }
        j := j + 1;
      }
      i := i + 1;
    }
  }

  /** `f.select(position)[:]` for a 2-D dataset. */
  function GridAt(f: SDFile, position: nat): (r: Result<Plane, Error>)
    ensures r.Ok? <==> position < |f.datasets| && f.datasets[position].data.Grid?
    ensures r.Ok? ==> r.value == f.datasets[position].data.rows
  {
    var ds :- SelectAt(f, position);
    if ds.data.Grid? then Ok(ds.data.rows) else Err(MalformedDataset(ds.name))
  }

  /** A fresh array holding a grid. */
  method ToArray(p: Plane) returns (a: array2<real>)
    requires Rectangular(p)
    ensures fresh(a) && a.Length0 == |p| && a.Length1 == Width(p)
    ensures forall i, j :: 0 <= i < a.Length0 && 0 <= j < a.Length1 ==> a[i, j] == p[i][j]
  {
    a := new real[|p|, Width(p)]((i, j) requires 0 <= i < |p| && 0 <= j < Width(p) => p[i][j]);
  }

  /**
   * `get_MODISgeo`: latitude is the dataset at position 0 and longitude the
   * one at position 1; longitudes are normalised and `(lon, lat)` is
   * returned in that order. A file that cannot be opened is an error.
   */
  method GetMODISGeo(geofile: Option<SDFile>) returns (r: Result<(array2<real>, array2<real>), Error>)
    requires geofile.Some? ==> WellFormed(geofile.value)
    ensures geofile.None? ==> r == Err(FileOpenError)
    ensures r.Ok? <==> geofile.Some? && GridAt(geofile.value, 0).Ok? && GridAt(geofile.value, 1).Ok?
    ensures r.Ok? ==> fresh(r.value.0) && fresh(r.value.1) && r.value.0 != r.value.1
    ensures r.Ok? ==>
      var lat, lon := GridAt(geofile.value, 0).value, GridAt(geofile.value, 1).value;
      && r.value.0.Length0 == |lon| && r.value.0.Length1 == Width(lon)
      && r.value.1.Length0 == |lat| && r.value.1.Length1 == Width(lat)
      && (forall i, j :: 0 <= i < |lon| && 0 <= j < Width(lon) ==> r.value.0[i, j] == Wrap(lon[i][j]))
      && (forall i, j :: 0 <= i < |lat| && 0 <= j < Width(lat) ==> r.value.1[i, j] == lat[i][j])
  {
    if geofile.None? {
      return Err(FileOpenError);
    }
    var f := geofile.value;
    var latGrid :- GridAt(f, 0);
    var lonGrid :- GridAt(f, 1);
    assert WellFormedArray(f.datasets[0].data) && WellFormedArray(f.datasets[1].data);
    var geolat := ToArray(latGrid);
    var geolon := ToArray(lonGrid);
    NormaliseLongitudes(geolon);
    r := Ok((geolon, geolat));
  }
}
