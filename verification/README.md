# MODIS Level-1B band calibration, modelled in Dafny

This project models the calibration pipeline of `src/L1BMODIS.py`. The pipeline loads one spectral band of a MODIS Level-1B swath file and works in these steps:

- It looks up which data field and which plane of that field hold a band number (`locate_band`).
- It reads that field's valid range, fill value and per-band scale and offset (`grab_scaling`). It uses the reflectance tables when the field name contains `Ref`, and the radiance tables otherwise.
- It overwrites out-of-range and fill samples with NaN, in place, and then applies `(v - offset) * scale`. When asked, it also returns the mask of the no-data cells (`mask_bad_data`).
- A separate step loads latitude and longitude grids from a geolocation file and adds 360 to every negative longitude (`get_MODISgeo`).

Two loaders compose these steps:

- `load_MODIS1KMband` finds the band through the four band-number tables.
- `load_MODISband_old` finds the band by its label in the comma-separated `band_names` attribute.

The model does not read files. A file is the value it would read: an ordered list of named datasets (`SD.SDFile`). Each dataset holds a 1-, 2- or 3-D array of reals and a map of attributes. The failures the model covers each become an `Err` of `SD.Error`, in the order Python would meet them: a missing dataset or attribute, a malformed attribute, an index out of range, a band or label that is not found, and an unknown `refrad`. The failures that are not modelled are listed under "## Left out". A sample is a `Cell`, either `Val(v)` or `NoData`: the NaN the source writes is explicit, and `NoData` stays `NoData` through the affine transform.

Modules:

- `Wrappers`: `Option` and `Result`.
- `Seqs`: first index, substring test, comma split and join.
- `SD`: the file value and its lookups.
- `BandLocator`: `locate_band`.
- `ScalingResolver`: `grab_scaling`.
- `InvalidityMasker`: `mask_bad_data`.
- `GeoLoader`: `get_MODISgeo`.
- `BandLoader`: the two loaders.

The in-place steps are methods over `array2` with loops:

- the successive `invalid[...] = True` assignments;
- `band_data[invalid] = np.nan`;
- `geolon[geolon < 0] += 360`.

The two loops of `locate_band` are methods with loops over sequences.

The selections and lookups are functions. Each loop method is proved equal to a function (`ReadTables`, `LocateIn`) or to a per-cell function (`Screen`, `Calibrate`, `Wrap`), and the lemmas and `ensures` of those functions state what the source promises.

In these places the model follows what the code actually does:

- A band listed in more than one group resolves to the last group scanned (`LocateLastWins`).
- `LocateUniqueGroup` proves that when the groups are disjoint, the last group that matches is also the only one.
- Longitudes end in [0, 360) only for inputs of at least -360, because only one 360 is added (`Wrap`). The docstring says longitudes are returned in (0, 360).
- The legacy loader indexes `valid_range[0]` and `valid_range[1]`, so it accepts a range of two or more values. `grab_scaling` unpacks exactly two values.
- When `refrad` names neither family, the source only prints a message. It then fails at line 291 because `offsets` is unbound. The model returns `UnknownQuantity` at that point, after the valid range and the fill value have been read.
- `locate_band` with no match fails because `FIELD` is unbound. The model returns `BandNotFound`.

## Model

| member | source | states |
|---|---|---|
| Seqs.IndexOf | src/L1BMODIS.py:94 | the first position of a value that occurs: it holds the value and no earlier position does (`np.where(...)[0][0]`, `list.index`) |
| Seqs.Contains | src/L1BMODIS.py:116 | `t in s` holds exactly when `t` occurs in `s` at some position |
| Seqs.JoinSplit | src/L1BMODIS.py:269 | joining the pieces of `split(",")` with commas gives back the original string |
| Seqs.SplitJoin | src/L1BMODIS.py:269 | splitting a comma-join of comma-free pieces gives back those pieces |
| Seqs.Split | src/L1BMODIS.py:269 | `split(",")` yields at least one piece and no piece contains a comma |
| SD.Select | src/L1BMODIS.py:111 | `select(name)` succeeds exactly when a dataset has that name, and yields that dataset; otherwise it is `DatasetNotFound(name)` |
| SD.SelectAt | src/L1BMODIS.py:191-192 | positional `select(k)` succeeds exactly when there are more than `k` datasets, and yields the `k`-th |
| SD.GetAttr | src/L1BMODIS.py:69-74 | an attribute lookup succeeds exactly when the dataset has that attribute, and yields it |
| SD.GetNumbers | src/L1BMODIS.py:113 | a numeric attribute is found exactly when present and numeric, and yields its values |
| SD.GetScalar | src/L1BMODIS.py:114 | `_FillValue` is found exactly when it is a single number, and yields it |
| SD.GetText | src/L1BMODIS.py:268 | `band_names` is found exactly when it is a text attribute, and yields the text |
| SD.At | src/L1BMODIS.py:128-129 | `values[index]` succeeds exactly when the index is in range |
| SD.PlaneAt | src/L1BMODIS.py:223 | `[INDEX, :, :]` succeeds exactly on a 3-D array with more than `INDEX` planes, and yields that plane |
| BandLocator.Trunc | src/L1BMODIS.py:86 | `astype(int)` truncates toward zero: the result is within one of the real, on the zero side |
| BandLocator.ReadTable | src/L1BMODIS.py:86 | a band-number table is read exactly when the dataset exists and is 1-D (a missing one is `DatasetNotFound`), and it is that dataset with each entry truncated |
| BandLocator.ReadTables | src/L1BMODIS.py:84-87 | succeeds exactly when every key's table can be read, and then holds one table per key, each equal to that key's `ReadTable` |
| BandLocator.ReadTablesPrefixErr | src/L1BMODIS.py:84-87 | the first table that cannot be read decides the outcome of reading them all |
| BandLocator.ReadBandTables | src/L1BMODIS.py:84-87 | the table-filling loop reads the four groups in scan order and equals `ReadTables` on `BAND_LISTS` |
| BandLocator.LastMatch | src/L1BMODIS.py:91-95 | none exactly when no group contains the band; otherwise a group that contains it, with no later group containing it |
| BandLocator.LocateIn | src/L1BMODIS.py:91-96 | succeeds exactly when some group contains the band. On success the field is the one paired with the last such group, the index holds the band, and no earlier index does. Otherwise the result is `BandNotFound` |
| BandLocator.ScanGroups | src/L1BMODIS.py:91-96 | the scan that overwrites FIELD and INDEX at each match computes `LocateIn` (last match wins) |
| BandLocator.Locate | src/L1BMODIS.py:76-96 | a table that cannot be read is the outcome; otherwise the lookup succeeds exactly when some group's truncated numbers contain the band |
| BandLocator.LocateFound | src/L1BMODIS.py:84-96 | when all four tables can be read, every band listed in one of them is located, in a group whose table holds the band at the returned index |
| BandLocator.LocateBand | src/L1BMODIS.py:76-96 | `locate_band` equals reading the tables, then `LocateIn` |
| BandLocator.LocateUniqueGroup | src/L1BMODIS.py:91-95 | a band in exactly one group resolves to that group's field and its first position there |
| BandLocator.LocateLastWins | src/L1BMODIS.py:91-95 | a band present in two groups never resolves to the earlier one |
| BandLocator.TruncatedDuplicateExample | src/L1BMODIS.py:86-94 | 13.5 truncates to 13; a table holding 13 twice yields the first of them |
| ScalingResolver.GrabScaling | src/L1BMODIS.py:107-131 | succeeds exactly when the field exists, `valid_range` has two values, `_FillValue` one, and the chosen family's scales and offsets reach `index`. Then the record holds the two range bounds in order, the fill value, and the `index`-th reflectance scale and offset when the name contains "Ref" (radiance ones otherwise) |
| ScalingResolver.FamilyOf | src/L1BMODIS.py:116-122 | the reflectance family is chosen exactly when "Ref" occurs in the field name |
| ScalingResolver.FieldFamilies | src/L1BMODIS.py:82 | the three `RefSB` fields select the reflectance tables and `EV_1KM_Emissive` the radiance tables |
| InvalidityMasker.Screen | src/L1BMODIS.py:141-147 | a cell becomes no data exactly when it was no data or above the maximum, below the minimum or equal to the fill value; valid cells are unchanged |
| InvalidityMasker.Affine | src/L1BMODIS.py:150 | the transform yields no data exactly on no data (NaN propagates) |
| InvalidityMasker.Calibrate | src/L1BMODIS.py:138-150 | the output cell is no data exactly when the input was no data, `> validmax`, `< validmin` or `== fillval`; a valid value `v` becomes `(v - offset) * scale` |
| InvalidityMasker.FlagWhere | src/L1BMODIS.py:141-143 | each masked assignment sets the flag exactly where its test holds and keeps every other flag |
| InvalidityMasker.BlankFlagged | src/L1BMODIS.py:147 | flagged cells of the caller's array become no data and the others are untouched |
| InvalidityMasker.MaskBadData | src/L1BMODIS.py:134-156 | the input array's cells become `Screen` of their old values (exactly the invalid ones turn into no data). The output has the input's shape and holds `Calibrate` of each old cell. A mask is returned exactly when `apply_mask` holds, and it is true exactly at the no-data output cells |
| GeoLoader.Wrap | src/L1BMODIS.py:196 | every negative longitude gets +360 and a non-negative one is unchanged, so a longitude in [-360, 360) ends in [0, 360) |
| GeoLoader.WrapIdempotent | src/L1BMODIS.py:196 | normalising twice is the same as normalising once |
| GeoLoader.WrapExample | src/L1BMODIS.py:196 | -10 becomes 350, 10 stays 10, -180 becomes 180 |
| GeoLoader.NormaliseLongitudes | src/L1BMODIS.py:196 | every cell of the array becomes `Wrap` of its old value, in place |
| GeoLoader.ToArray | src/L1BMODIS.py:191-192 | `[:]` copies a grid into a fresh array of the same shape and values |
| GeoLoader.GridAt | src/L1BMODIS.py:191-192 | the dataset at a position, read whole, exists exactly when the position is in range and holds a 2-D array |
| GeoLoader.GetMODISGeo | src/L1BMODIS.py:159-202 | a file that cannot be opened is `FileOpenError`. Otherwise the result exists exactly when positions 0 and 1 hold grids, and it is `(lon, lat)`: two distinct fresh arrays, longitudes normalised cell by cell and latitudes as read, each with its grid's shape |
| BandLoader.CellsOf | src/L1BMODIS.py:223 | `astype(np.double)` copies the plane into a fresh array of numeric cells of the same shape |
| BandLoader.SelectBand | src/L1BMODIS.py:220-223 | a lookup failure is passed on. It succeeds exactly when the band is located and field `FIELD` exists, is 3-D and reaches `INDEX`; the location is then `locate_band`'s and the plane is the `INDEX`-th plane of `FIELD` |
| BandLoader.LoadMODIS1KMBand | src/L1BMODIS.py:204-239 | lookup and plane errors are passed on. Without scaling the result is the plane unchanged, with no mask. With scaling it succeeds exactly when the scaling of the same `(FIELD, INDEX)` is found, and each cell is `Calibrate` of the plane's value under that record. A mask is present exactly when `apply_mask` holds and marks exactly the no-data cells. The arrays are fresh |
| BandLoader.QuantityNamed | src/L1BMODIS.py:270-277 | "reflectance" and "radiance" select their families; anything else selects none |
| BandLoader.ScaleOffset | src/L1BMODIS.py:271-275 | the `k`-th scale and offset of a family, present exactly when both tables reach `k` |
| BandLoader.RangeAndFill | src/L1BMODIS.py:279-281 | `valid_range[0]`, `valid_range[1]` and `_FillValue`, present exactly when the range has at least two values and the fill value is a single number |
| BandLoader.LegacyScaling | src/L1BMODIS.py:270-281 | succeeds exactly when `refrad` names a family whose scales and offsets reach `k` and the range and fill value are readable. It then yields the `k`-th scale and offset and `valid_range[0]`, `valid_range[1]` and `_FillValue`. An unknown `refrad` with a readable range and fill value is exactly `UnknownQuantity` |
| BandLoader.LegacySelect | src/L1BMODIS.py:268-281 | a missing dataset or an absent label is an error, and so is an unknown `refrad`. It succeeds exactly when the label is listed, the 3-D data reach its first position in `band_names.split(",")` and `LegacyScaling` succeeds at that position. On success that same index selects the plane and the scaling record |
| BandLoader.LegacyLabelExample | src/L1BMODIS.py:269 | `"1,2,3".split(",")` is `["1", "2", "3"]`, and label "2" is at position 1 |
| BandLoader.LoadMODISBandOld | src/L1BMODIS.py:243-295 | succeeds exactly when `LegacySelect` does and passes on its error. Each cell is `Calibrate` of the selected plane's value under the selected record, and the mask is always present, true exactly at no-data cells. The arrays are fresh |

## Left out

- File access is not modelled: opening with `SD(...)`, `f.end()`, `get_hdf_data`, `print_hdf_contents` and `load_coords` (lines 11-65, 99-104). Files are passed in as values, and whether a handle is closed is not modelled. `select` and `grab_attr` are modelled only as lookups in that value.
- A band file that cannot be opened is not modelled. Only the geolocation file's explicit try/except (lines 183-187) is modelled, as `FileOpenError`.
- Floating point is not modelled: NaN arithmetic, rounding and overflow in `(v - offset) * scale`. Samples are exact reals, and `astype(np.double)` is the identity on them.
- Truncating a NaN band number is not modelled.
- The reductions of `np.ma.masked_array`, which skip masked cells, are not modelled. Only the boolean mask is.
- The printed message for an unknown `refrad` (line 277) is left out. The model has only the failure that follows it.
- Numpy broadcasting is not modelled. A dataset whose rank differs from what a step indexes is `MalformedDataset`. A text attribute where numbers are expected, a `valid_range` that cannot be unpacked, or a `_FillValue` with other than one value is `MalformedAttribute`.
- A single-band scales table that the reader returns as a bare scalar is not modelled. Attributes are always sequences here.
- When two datasets share a name, `select` by name takes the first.
- GetMODISGeo: reads its two datasets only as 2-D grids (`GridAt`). A dataset of another rank at position 0 or 1 is `MalformedDataset`, while the source reads any rank and adds 360 to its negative values.
- MaskBadData: takes an array of real cells. Called directly on an integer array, the source raises `ValueError` at `band_data[invalid] = np.nan` (line 147); that failure is not modelled. The two loaders always pass a double-precision copy.
- The default arguments `apply_mask = False` (line 134) and `apply_scaling = True` (line 204) are not modelled: every argument is passed explicitly.
