/**
 * Band lookup (`locate_band`): which data field holds a band number and
 * at which position along that field's band axis.
 */
module BandLocator {
  import opened Wrappers
  import opened Seqs
  import opened SD

  /** The band-number datasets, in the order they are scanned. */
  const BAND_LISTS: seq<string> := ["Band_250M", "Band_500M", "Band_1KM_RefSB", "Band_1KM_Emissive"]

  /** The data field paired with each band-number dataset, position by position. */
  const BAND_FIELDS: seq<string> := ["EV_250_Aggr1km_RefSB", "EV_500_Aggr1km_RefSB", "EV_1KM_RefSB", "EV_1KM_Emissive"]

  /** The result of a lookup: the field and the index within it. */
  datatype Location = Location(field: string, index: nat)

  /** numpy's `astype(int)` on a real: truncation toward zero. */
  function Trunc(x: real): (n: int)
    ensures 0.0 <= x ==> n as real <= x < n as real + 1.0
    ensures x < 0.0 ==> n as real - 1.0 < x <= n as real
  {
    if x >= 0.0 then x.Floor else -((-x).Floor)
  }

  /** One band-number dataset, read and truncated to integers. */
  function ReadTable(f: SDFile, key: string): (r: Result<seq<int>, Error>)
    ensures r.Ok? <==> Select(f, key).Ok? && Select(f, key).value.data.Vector?
    ensures Select(f, key).Err? ==> r == Err(DatasetNotFound(key))
    ensures r.Ok? ==> |r.value| == |Select(f, key).value.data.elems|
    ensures r.Ok? ==> forall i :: 0 <= i < |r.value| ==> r.value[i] == Trunc(Select(f, key).value.data.elems[i])
  {
    var ds :- Select(f, key);
    if ds.data.Vector? then
      Ok(seq(|ds.data.elems|, i requires 0 <= i < |ds.data.elems| => Trunc(ds.data.elems[i])))
    else
      Err(MalformedDataset(key))
  }

  /** The tables of `keys`, read in order; the first failing read is the outcome. */
  function ReadTables(f: SDFile, keys: seq<string>): (r: Result<seq<seq<int>>, Error>)
    ensures r.Ok? <==> forall k :: 0 <= k < |keys| ==> ReadTable(f, keys[k]).Ok?
    ensures r.Ok? ==> |r.value| == |keys|
    ensures r.Ok? ==> forall k :: 0 <= k < |keys| ==> ReadTable(f, keys[k]) == Ok(r.value[k])
  {
    if keys == [] then
      Ok([])
    else
      var init :- ReadTables(f, keys[..|keys| - 1]);
      var last :- ReadTable(f, keys[|keys| - 1]);
      Ok(init + [last])
  }

  /** A failing read of a prefix of the keys is the outcome of reading all of them. */
  lemma {:induction false} ReadTablesPrefixErr(f: SDFile, keys: seq<string>, k: nat)
    requires k <= |keys|
    requires ReadTables(f, keys[..k]).Err?
    ensures ReadTables(f, keys) == ReadTables(f, keys[..k])
  {
    if k < |keys| {
      var init := keys[..|keys| - 1];
      assert init[..k] == keys[..k];
      ReadTablesPrefixErr(f, init, k);
    } else {
      assert keys[..k] == keys;
    }
  }

  /** The last group (in scan order) whose numbers contain `band`. */
  function LastMatch(numbers: seq<seq<int>>, band: int): (g: Option<nat>)
    ensures g.None? <==> forall h :: 0 <= h < |numbers| ==> band !in numbers[h]
    ensures g.Some? ==> g.value < |numbers| && band in numbers[g.value]
    ensures g.Some? ==> forall h :: g.value < h < |numbers| ==> band !in numbers[h]
  {
    if numbers == [] then None
    else if band in numbers[|numbers| - 1] then Some(|numbers| - 1)
    else LastMatch(numbers[..|numbers| - 1], band)
  }

  /**
   * The lookup on already-read tables: the field of the last group that
   * contains the band and the first position of the band in that group.
   */
  function LocateIn(numbers: seq<seq<int>>, band: int): (r: Result<Location, Error>)
    requires |numbers| == |BAND_FIELDS|
    ensures r.Ok? <==> exists g :: 0 <= g < |numbers| && band in numbers[g]
    ensures r.Err? ==> r.error == BandNotFound(band)
    ensures r.Ok? ==>
      exists g :: 0 <= g < |BAND_FIELDS| && r.value.field == BAND_FIELDS[g]
        && r.value.index < |numbers[g]| && numbers[g][r.value.index] == band
        && band !in numbers[g][..r.value.index]
        && (forall h :: g < h < |numbers| ==> band !in numbers[h])
  {
    match LastMatch(numbers, band)
    case None => Err(BandNotFound(band))
    case Some(g) => Ok(Location(BAND_FIELDS[g], IndexOf(numbers[g], band)))
  }

  /** `locate_band` as a whole: read the four tables, then look the band up. */
  function Locate(f: SDFile, band: int): (r: Result<Location, Error>)
    ensures ReadTables(f, BAND_LISTS).Err? ==> r == Err(ReadTables(f, BAND_LISTS).error)
    ensures ReadTables(f, BAND_LISTS).Ok? ==>
      (r.Ok? <==> exists g :: 0 <= g < |BAND_LISTS| && band in ReadTables(f, BAND_LISTS).value[g])
  {
    var numbers :- ReadTables(f, BAND_LISTS);
    LocateIn(numbers, band)
  }

  /**
   * The first loop of `locate_band`: read the band-number dataset of every
   * group, in scan order, into the table of groups.
   */
  method ReadBandTables(f: SDFile) returns (r: Result<seq<seq<int>>, Error>)
    ensures r == ReadTables(f, BAND_LISTS)
  {
    var numbers: seq<seq<int>> := [];
    for k := 0 to |BAND_LISTS|
      invariant ReadTables(f, BAND_LISTS[..k]) == Ok(numbers)
    {
      assert BAND_LISTS[..k + 1][..k] == BAND_LISTS[..k];
      var table := ReadTable(f, BAND_LISTS[k]);
      if table.Err? {
        ReadTablesPrefixErr(f, BAND_LISTS, k + 1);
        return Err(table.error);
      }
      numbers := numbers + [table.value];
    }
    assert BAND_LISTS[..|BAND_LISTS|] == BAND_LISTS;
    r := Ok(numbers);
  }

  /**
   * The second loop of `locate_band`: scan all groups, overwriting the
   * field and index at every group that contains the band, so that the
   * last such group wins; no match leaves them unset.
   */
  method ScanGroups(numbers: seq<seq<int>>, band: int) returns (r: Result<Location, Error>)
    requires |numbers| == |BAND_FIELDS|
    ensures r == LocateIn(numbers, band)
  {
    var found := false;
    var field := "";
    var index := 0;
    for k := 0 to |numbers|
      invariant found <==> LastMatch(numbers[..k], band).Some?
      invariant found ==> field == BAND_FIELDS[LastMatch(numbers[..k], band).value]
      invariant found ==> index == IndexOf(numbers[LastMatch(numbers[..k], band).value], band)
    {
      assert numbers[..k + 1][..k] == numbers[..k];
      if band in numbers[k] {
        field := BAND_FIELDS[k];
        index := IndexOf(numbers[k], band);
        found := true;
      }
    }
    assert numbers[..|numbers|] == numbers;
    if !found {
      return Err(BandNotFound(band));
    }
    r := Ok(Location(field, index));
  }

  /** `locate_band`: read the tables, then scan them. */
  method LocateBand(f: SDFile, band: int) returns (r: Result<Location, Error>)
    ensures r == Locate(f, band)
  {
    var numbers :- ReadBandTables(f);
    r := ScanGroups(numbers, band);
  }

  /**
   * When the band lies in one group only (the groups are disjoint, as for
   * the instrument's own tables), "last match wins" picks that group.
   */
  lemma LocateUniqueGroup(numbers: seq<seq<int>>, band: int, g: nat)
    requires |numbers| == |BAND_FIELDS| && g < |numbers|
    requires band in numbers[g]
    requires forall h :: 0 <= h < |numbers| && h != g ==> band !in numbers[h]
    ensures LocateIn(numbers, band) == Ok(Location(BAND_FIELDS[g], IndexOf(numbers[g], band)))
  {
  }

  /** A band listed in two groups resolves to the later one. */
  lemma LocateLastWins(numbers: seq<seq<int>>, band: int, g: nat, h: nat)
    requires |numbers| == |BAND_FIELDS| && g < h < |numbers|
    requires band in numbers[g] && band in numbers[h]
    ensures LocateIn(numbers, band).Ok? && LocateIn(numbers, band).value.field != BAND_FIELDS[g]
  {
  }

  /**
   * Every band listed in a table of a file whose four tables can be read
   * is located, in a group whose truncated numbers contain it.
   */
  lemma LocateFound(f: SDFile, band: int, g: nat)
    requires g < |BAND_LISTS|
    requires forall k :: 0 <= k < |BAND_LISTS| ==> ReadTable(f, BAND_LISTS[k]).Ok?
    requires band in ReadTable(f, BAND_LISTS[g]).value
    ensures Locate(f, band).Ok?
    ensures
      exists h :: 0 <= h < |BAND_LISTS| && Locate(f, band).value.field == BAND_FIELDS[h]
        && Locate(f, band).value.index < |ReadTable(f, BAND_LISTS[h]).value|
        && ReadTable(f, BAND_LISTS[h]).value[Locate(f, band).value.index] == band
  {
    var tables := ReadTables(f, BAND_LISTS).value;
    assert tables[g] == ReadTable(f, BAND_LISTS[g]).value;
    assert band in tables[g];
    var h := LastMatch(tables, band).value;
    assert Locate(f, band) == Ok(Location(BAND_FIELDS[h], IndexOf(tables[h], band)));
    assert tables[h] == ReadTable(f, BAND_LISTS[h]).value;
  }

  /**
   * Truncation can make two entries of one table equal (13.0 and 13.5 both
   * become 13); the lookup then returns the first of them.
   */
  lemma TruncatedDuplicateExample()
    ensures Trunc(13.5) == 13 && Trunc(-0.5) == 0
    ensures LocateIn([[1], [3], [12, 13, 13, 14], [20]], 13) == Ok(Location("EV_1KM_RefSB", 1))
  {
  }
}
