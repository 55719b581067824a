/**
 * The scientific-data file as the pipeline sees it once read: an ordered
 * list of named datasets, each an array of reals with named attributes.
 * Opening, reading and closing files is not modelled; what the reader
 * would return is passed in as this value.
 */
module SD {
  import opened Wrappers
  import opened Seqs

  /** A 2-D grid of samples, row by row. */
  type Plane = seq<seq<real>>

  /** An attribute: numbers, or a text (such as `band_names`). */
  datatype Attr = Num(values: seq<real>) | Text(text: string)

  /** The array a dataset holds: 1-D, 2-D, or 3-D with the band axis first. */
  datatype Array = Vector(elems: seq<real>) | Grid(rows: Plane) | Cube(planes: seq<Plane>)

  datatype Dataset = Dataset(name: string, data: Array, attrs: map<string, Attr>)

  datatype SDFile = SDFile(datasets: seq<Dataset>)

  /** The failures the pipeline can end in, one per exception the source can raise. */
  datatype Error =
    | FileOpenError
    | DatasetNotFound(dataset: string)
    | DatasetIndexOutOfRange(position: nat)
    | AttributeNotFound(dataset: string, attribute: string)
    | MalformedAttribute(dataset: string, attribute: string)
    | MalformedDataset(dataset: string)
    | IndexOutOfRange(index: nat, length: nat)
    | BandNotFound(band: int)
    | LabelNotFound(bandLabel: string)
    | UnknownQuantity(refrad: string)

  function Width(p: Plane): nat
  {
    if |p| == 0 then 0 else |p[0]|
  }

  /** Every row of the grid has the same length, as in a numpy array. */
  predicate Rectangular(p: Plane)
  {
    forall r :: 0 <= r < |p| ==> |p[r]| == Width(p)
  }

  predicate WellFormedArray(a: Array)
  {
    match a
    case Vector(_) => true
    case Grid(rows) => Rectangular(rows)
    case Cube(planes) => forall k :: 0 <= k < |planes| ==> Rectangular(planes[k])
  }

  /** What any array read from a file satisfies. */
  predicate WellFormed(f: SDFile)
  {
    forall d :: 0 <= d < |f.datasets| ==> WellFormedArray(f.datasets[d].data)
  }

  function Names(f: SDFile): (names: seq<string>)
    ensures |names| == |f.datasets|
    ensures forall d :: 0 <= d < |names| ==> names[d] == f.datasets[d].name
  {
    seq(|f.datasets|, d requires 0 <= d < |f.datasets| => f.datasets[d].name)
  }

  /** `f.select(name)`: the (first) dataset of that name. */
  function Select(f: SDFile, name: string): (r: Result<Dataset, Error>)
    ensures r.Ok? <==> exists d :: 0 <= d < |f.datasets| && f.datasets[d].name == name
    ensures r.Ok? ==> r.value.name == name && r.value in f.datasets
    ensures r.Err? ==> r.error == DatasetNotFound(name)
  {
    var names := Names(f);
    if name in names then
      Ok(f.datasets[IndexOf(names, name)])
    else
      Err(DatasetNotFound(name))
  }

  /** `f.select(position)`: the dataset at a position in the file. */
  function SelectAt(f: SDFile, position: nat): (r: Result<Dataset, Error>)
    ensures r.Ok? <==> position < |f.datasets|
    ensures r.Ok? ==> r.value == f.datasets[position]
  {
    if position < |f.datasets| then Ok(f.datasets[position]) else Err(DatasetIndexOutOfRange(position))
  }

  /** A named attribute of a dataset. */
  function GetAttr(ds: Dataset, attribute: string): (r: Result<Attr, Error>)
    ensures r.Ok? <==> attribute in ds.attrs
    ensures r.Ok? ==> r.value == ds.attrs[attribute]
  {
    if attribute in ds.attrs then Ok(ds.attrs[attribute]) else Err(AttributeNotFound(ds.name, attribute))
  }

  /** A numeric attribute; a text attribute where numbers are expected is malformed. */
  function GetNumbers(ds: Dataset, attribute: string): (r: Result<seq<real>, Error>)
    ensures r.Ok? <==> attribute in ds.attrs && ds.attrs[attribute].Num?
    ensures r.Ok? ==> r.value == ds.attrs[attribute].values
  {
    var a :- GetAttr(ds, attribute);
    if a.Num? then Ok(a.values) else Err(MalformedAttribute(ds.name, attribute))
  }

  /**
   * A scalar attribute such as `_FillValue`. The reader returns a
   * one-element attribute as a scalar; other lengths are malformed here.
   */
  function GetScalar(ds: Dataset, attribute: string): (r: Result<real, Error>)
    ensures r.Ok? <==> attribute in ds.attrs && ds.attrs[attribute].Num? && |ds.attrs[attribute].values| == 1
    ensures r.Ok? ==> r.value == ds.attrs[attribute].values[0]
  {
    var v :- GetNumbers(ds, attribute);
    if |v| == 1 then Ok(v[0]) else Err(MalformedAttribute(ds.name, attribute))
  }

  /** A text attribute such as `band_names`. */
  function GetText(ds: Dataset, attribute: string): (r: Result<string, Error>)
    ensures r.Ok? <==> attribute in ds.attrs && ds.attrs[attribute].Text?
    ensures r.Ok? ==> r.value == ds.attrs[attribute].text
  {
    var a :- GetAttr(ds, attribute);
    if a.Text? then Ok(a.text) else Err(MalformedAttribute(ds.name, attribute))
  }

  /** `values[index]`, which raises `IndexError` past the end. */
  function At(values: seq<real>, index: nat): (r: Result<real, Error>)
    ensures r.Ok? <==> index < |values|
    ensures r.Ok? ==> r.value == values[index]
  {
    if index < |values| then Ok(values[index]) else Err(IndexOutOfRange(index, |values|))
  }

  /** `data[index, :, :]` of a 3-D dataset: the plane at `index` along the band axis. */
  function PlaneAt(ds: Dataset, index: nat): (r: Result<Plane, Error>)
    ensures r.Ok? <==> ds.data.Cube? && index < |ds.data.planes|
    ensures r.Ok? ==> r.value == ds.data.planes[index]
  {
    if !ds.data.Cube? then Err(MalformedDataset(ds.name))
    else if index < |ds.data.planes| then Ok(ds.data.planes[index])
    else Err(IndexOutOfRange(index, |ds.data.planes|))
  }
}
