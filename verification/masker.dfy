/**
 * Invalid-sample masking and affine calibration (`mask_bad_data`).
 * The float NaN the source writes into bad cells is the explicit
 * `NoData` cell here, and it stays `NoData` through the transform.
 */
module InvalidityMasker {
  import opened Wrappers
  import opened ScalingResolver

  /** One sample: a number, or no data (NaN in the source). */
  datatype Cell = NoData | Val(v: real)

  /** A calibrated band and, when asked for, the mask of its no-data cells. */
  datatype MaskedBand = MaskedBand(data: array2<Cell>, mask: Option<array2<bool>>)

  /** `band_data > validmax`: false on no data, as any comparison with NaN is. */
  predicate AboveRange(c: Cell, s: Scaling)
  {
    c.Val? && c.v > s.validmax
  }

  /** `band_data < validmin`. */
  predicate BelowRange(c: Cell, s: Scaling)
  {
    c.Val? && c.v < s.validmin
  }

  /** `band_data == fillval`. */
  predicate IsFill(c: Cell, s: Scaling)
  {
    c.Val? && c.v == s.fillval
  }

  /** A cell is invalid when any of the three tests holds. */
  predicate Invalid(c: Cell, s: Scaling)
  {
    AboveRange(c, s) || BelowRange(c, s) || IsFill(c, s)
  }

  /** The cell after invalid cells are overwritten with no data. */
  function Screen(c: Cell, s: Scaling): (r: Cell)
    ensures r.NoData? <==> c.NoData? || Invalid(c, s)
    ensures !Invalid(c, s) ==> r == c
  {
    if Invalid(c, s) then NoData else c
  }

  /** `(v - offset) * scale`; no data stays no data, as NaN does. */
  function Affine(c: Cell, s: Scaling): (r: Cell)
    ensures r.NoData? <==> c.NoData?
  {
    match c
    case NoData => NoData
    case Val(v) => Val((v - s.offset) * s.scale)
  }

  /** What one raw cell becomes: no data exactly when it was invalid (or no data), else calibrated. */
  function Calibrate(c: Cell, s: Scaling): (r: Cell)
    ensures r.NoData? <==> c.NoData? || c.v > s.validmax || c.v < s.validmin || c.v == s.fillval
    ensures c.Val? && s.validmin <= c.v <= s.validmax && c.v != s.fillval ==> r == Val((c.v - s.offset) * s.scale)
  {
    Affine(Screen(c, s), s)
  }

  /**
   * One of the masked assignments `invalid[test(band_data)] = True`: every
   * cell where the test holds becomes true, the others keep their flag.
   */
  method FlagWhere(invalid: array2<bool>, band: array2<Cell>, test: Cell -> bool)
    requires invalid.Length0 == band.Length0 && invalid.Length1 == band.Length1
    modifies invalid
    ensures forall i, j :: 0 <= i < invalid.Length0 && 0 <= j < invalid.Length1 ==>
      invalid[i, j] == (old(invalid[i, j]) || test(band[i, j]))
  {
    var i := 0;
    while i < invalid.Length0
      invariant 0 <= i <= invalid.Length0
      invariant forall r, c :: 0 <= r < i && 0 <= c < invalid.Length1 ==>
        invalid[r, c] == (old(invalid[r, c]) || test(band[r, c]))
      invariant forall r, c :: i <= r < invalid.Length0 && 0 <= c < invalid.Length1 ==>
        invalid[r, c] == old(invalid[r, c])
    {
      var j := 0;
      while j < invalid.Length1
        invariant 0 <= j <= invalid.Length1
        invariant forall r, c :: 0 <= r < i && 0 <= c < invalid.Length1 ==>
          invalid[r, c] == (old(invalid[r, c]) || test(band[r, c]))
        invariant forall c :: 0 <= c < j ==> invalid[i, c] == (old(invalid[i, c]) || test(band[i, c]))
        invariant forall r, c :: i <= r < invalid.Length0 && 0 <= c < invalid.Length1 && (r > i || c >= j) ==>
          invalid[r, c] == old(invalid[r, c])
      {
        if test(band[i, j]) {
          invalid[i, j] := true;
        }
        j := j + 1;
      }
      i := i + 1;
    }
  }

  /** `band_data[invalid] = np.nan`: flagged cells of the caller's array become no data. */
  method BlankFlagged(band: array2<Cell>, invalid: array2<bool>)
    requires invalid.Length0 == band.Length0 && invalid.Length1 == band.Length1
    modifies band
    ensures forall i, j :: 0 <= i < band.Length0 && 0 <= j < band.Length1 ==>
      band[i, j] == if invalid[i, j] then NoData else old(band[i, j])
  {
    var i := 0;
    while i < band.Length0
      invariant 0 <= i <= band.Length0
      invariant forall r, c :: 0 <= r < i && 0 <= c < band.Length1 ==>
        band[r, c] == if invalid[r, c] then NoData else old(band[r, c])
      invariant forall r, c :: i <= r < band.Length0 && 0 <= c < band.Length1 ==>
        band[r, c] == old(band[r, c])
    {
      var j := 0;
      while j < band.Length1
        invariant 0 <= j <= band.Length1
        invariant forall r, c :: 0 <= r < i && 0 <= c < band.Length1 ==>
          band[r, c] == if invalid[r, c] then NoData else old(band[r, c])
        invariant forall c :: 0 <= c < j ==> band[i, c] == if invalid[i, c] then NoData else old(band[i, c])
        invariant forall r, c :: i <= r < band.Length0 && 0 <= c < band.Length1 && (r > i || c >= j) ==>
          band[r, c] == old(band[r, c])
      {
        if invalid[i, j] {
          band[i, j] := NoData;
        }
        j := j + 1;
      }
      i := i + 1;
    }
  }

  /**
   * `mask_bad_data`: flag cells above the valid maximum, below the valid
   * minimum or equal to the fill value; overwrite the flagged cells of the
   * input with no data; return the affine transform of the result and,
   * when `applyMask` holds, the mask of its no-data cells.
   */
  method MaskBadData(band: array2<Cell>, s: Scaling, applyMask: bool) returns (out: MaskedBand)
    modifies band
    ensures forall i, j :: 0 <= i < band.Length0 && 0 <= j < band.Length1 ==>
      band[i, j] == Screen(old(band[i, j]), s)
    ensures fresh(out.data)
    ensures out.data.Length0 == band.Length0 && out.data.Length1 == band.Length1
    ensures forall i, j :: 0 <= i < band.Length0 && 0 <= j < band.Length1 ==>
      out.data[i, j] == Calibrate(old(band[i, j]), s)
    ensures out.mask.Some? <==> applyMask
    ensures out.mask.Some? ==>
      fresh(out.mask.value) && out.mask.value.Length0 == band.Length0 && out.mask.value.Length1 == band.Length1
    ensures out.mask.Some? ==> forall i, j :: 0 <= i < band.Length0 && 0 <= j < band.Length1 ==>
      (out.mask.value[i, j] <==> out.data[i, j].NoData?)
  {
    var invalid := new bool[band.Length0, band.Length1]((i, j) => false);
    FlagWhere(invalid, band, c => AboveRange(c, s));
    FlagWhere(invalid, band, c => BelowRange(c, s));
    FlagWhere(invalid, band, c => IsFill(c, s));
    BlankFlagged(band, invalid);

    var data := new Cell[band.Length0, band.Length1]((i, j) reads band
      requires 0 <= i < band.Length0 && 0 <= j < band.Length1 => Affine(band[i, j], s));
    if applyMask {
      var mask := new bool[band.Length0, band.Length1]((i, j) reads data
        requires 0 <= i < data.Length0 && 0 <= j < data.Length1 => data[i, j].NoData?);
      out := MaskedBand(data, Some(mask));
    } else {
      out := MaskedBand(data, None);
    }
  }
}
