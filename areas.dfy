/**
 * Turning region records into response areas: pull the fields out of each
 * record, transcode its WKT geometry, and keep the records that transcode.
 */
module AreaAssembly {
  import opened Wrappers
  import opened Dynamo

  /** The GeoJSON value the transcoder produces; the pipeline passes it through untouched. */
  type GeoJson = string

  /** One entry of the response's `areas` list. */
  datatype Area = Area(geoId: string, county: string, crimePercentile: real, geometry: GeoJson)

  /** The `unwrap()` that panicked: at which record, on which field. */
  datatype Panic = MissingField(record: nat, field: string)

  /** A string attribute of a record (`get(field).and_then(as_s)`). */
  function Text(item: Item, field: string): Option<string>
  {
    if field in item && item[field].S? then Some(item[field].s) else None
  }

  /** The three string fields the assembly unwraps are present. */
  predicate WellFormed(item: Item)
  {
    Text(item, "GEOID").Some? && Text(item, "County").Some? && Text(item, "Geometry").Some?
  }

  /** The field whose unwrap fails first on a malformed record, in extraction order. */
  function MissingOf(item: Item): string
  {
    if Text(item, "GEOID").None? then "GEOID"
    else if Text(item, "County").None? then "County"
    else "Geometry"
  }

  /**
   * The record's crime percentile: the number attribute parsed as a float,
   * or 0.0 when the attribute is missing, is not a number, or does not parse.
   */
  function CrimePercentile(item: Item, parse: string -> Option<real>): (r: real)
    ensures "WeightedCrimePercentile" !in item ==> r == 0.0
    ensures "WeightedCrimePercentile" in item && !item["WeightedCrimePercentile"].N? ==> r == 0.0
    ensures "WeightedCrimePercentile" in item && item["WeightedCrimePercentile"].N? ==>
      r == match parse(item["WeightedCrimePercentile"].n) case None => 0.0 case Some(x) => x
  {
    if "WeightedCrimePercentile" in item && item["WeightedCrimePercentile"].N? then
      match parse(item["WeightedCrimePercentile"].n)
      case None => 0.0
      case Some(x) => x
    else 0.0
  }

  /** The area a well-formed record contributes, if its geometry transcodes. */
  function AreaOf(item: Item, transcode: string -> Option<GeoJson>, parse: string -> Option<real>): Option<Area>
    requires WellFormed(item)
  {
    match transcode(Text(item, "Geometry").value)
    case None => None
    case Some(geometry) =>
      Some(Area(Text(item, "GEOID").value, Text(item, "County").value, CrimePercentile(item, parse), geometry))
  }

  predicate AllWellFormed(items: seq<Item>)
  {
    forall i :: 0 <= i < |items| ==> WellFormed(items[i])
  }

  /** The area a well-formed record contributes, as a list of zero or one areas. */
  function AreaList(item: Item, transcode: string -> Option<GeoJson>, parse: string -> Option<real>): seq<Area>
    requires WellFormed(item)
  {
    match AreaOf(item, transcode, parse)
    case None => []
    case Some(area) => [area]
  }

  /** The areas of a run of well-formed records: those whose geometry transcodes, in record order. */
  function Areas(items: seq<Item>, transcode: string -> Option<GeoJson>, parse: string -> Option<real>): (r: seq<Area>)
    requires AllWellFormed(items)
    ensures |r| <= |items|
    ensures r == [] <==> forall i :: 0 <= i < |items| ==> transcode(Text(items[i], "Geometry").value).None?
  {
    if items == [] then []
    else
      assert forall i :: 1 <= i < |items| ==> items[i] == items[1..][i - 1];
      AreaList(items[0], transcode, parse) + Areas(items[1..], transcode, parse)
  }

  lemma WellFormedAppend(a: seq<Item>, b: seq<Item>)
    requires AllWellFormed(a) && AllWellFormed(b)
    ensures AllWellFormed(a + b)
  {
  }

  /** Filtering preserves record order: the areas of two runs are the areas of each, one after the other. */
  lemma {:induction false} AreasAppend(a: seq<Item>, b: seq<Item>, transcode: string -> Option<GeoJson>, parse: string -> Option<real>)
    requires AllWellFormed(a) && AllWellFormed(b)
    ensures AllWellFormed(a + b)
    ensures Areas(a + b, transcode, parse) == Areas(a, transcode, parse) + Areas(b, transcode, parse)
    decreases |a|
  {
    WellFormedAppend(a, b);
    if a == [] {
      assert a + b == b;
    } else {
      var tail := a[1..];
      assert AllWellFormed(tail) by {
        assert forall i :: 0 <= i < |tail| ==> tail[i] == a[i + 1];
      }
      assert (a + b)[0] == a[0];
      assert (a + b)[1..] == tail + b;
      AreasAppend(tail, b, transcode, parse);
      var head := AreaList(a[0], transcode, parse);
      assert Areas(a + b, transcode, parse) == head + Areas(tail + b, transcode, parse);
      assert Areas(a, transcode, parse) == head + Areas(tail, transcode, parse);
      assert head + (Areas(tail, transcode, parse) + Areas(b, transcode, parse))
          == (head + Areas(tail, transcode, parse)) + Areas(b, transcode, parse);
    }
  }

  /**
   * Every area comes from some record: it carries that record's GEOID and
   * County unchanged, its percentile, and its transcoded geometry.
   */
  lemma {:induction false} AreasComeFromRecords(items: seq<Item>, transcode: string -> Option<GeoJson>, parse: string -> Option<real>, k: nat)
    requires AllWellFormed(items) && k < |Areas(items, transcode, parse)|
    ensures exists i :: 0 <= i < |items| && AreaOf(items[i], transcode, parse) == Some(Areas(items, transcode, parse)[k])
    decreases |items|
  {
    assert items != [];
    var rest := Areas(items[1..], transcode, parse);
    var here := AreaOf(items[0], transcode, parse);
    if here.Some? && k == 0 {
      assert AreaOf(items[0], transcode, parse) == Some(Areas(items, transcode, parse)[0]);
    } else {
      var k' := if here.Some? then k - 1 else k;
      assert Areas(items, transcode, parse)[k] == rest[k'];
      AreasComeFromRecords(items[1..], transcode, parse, k');
      var i :| 0 <= i < |items[1..]| && AreaOf(items[1..][i], transcode, parse) == Some(rest[k']);
      assert items[1..][i] == items[i + 1];
    }
  }

  /** The position of the first record the assembly would panic on. */
  function FirstMalformed(items: seq<Item>): (r: Option<nat>)
    ensures r.None? <==> AllWellFormed(items)
    ensures r.Some? ==> r.value < |items| && !WellFormed(items[r.value])
    ensures r.Some? ==> forall j :: 0 <= j < r.value ==> WellFormed(items[j])
  {
    if items == [] then None
    else if !WellFormed(items[0]) then Some(0)
    else match FirstMalformed(items[1..])
      case None => None
      case Some(k) => Some(k + 1)
  }

  lemma FirstMalformedAt(items: seq<Item>, i: nat)
    requires i < |items| && !WellFormed(items[i])
    requires AllWellFormed(items[..i])
    ensures FirstMalformed(items) == Some(i)
  {
  }

  /** Appending one well-formed record appends its area, if it has one. */
  lemma AreasSnoc(prefix: seq<Item>, item: Item, transcode: string -> Option<GeoJson>, parse: string -> Option<real>)
    requires AllWellFormed(prefix) && WellFormed(item)
    ensures AllWellFormed(prefix + [item])
    ensures Areas(prefix + [item], transcode, parse) == Areas(prefix, transcode, parse) + AreaList(item, transcode, parse)
  {
    AreasAppend(prefix, [item], transcode, parse);
    assert [item][1..] == [];
    assert Areas([item], transcode, parse) == AreaList(item, transcode, parse) + [];
  }

  /**
   * The assembly loop of `geocode`: extract each record's fields (panicking
   * on a missing string field) and push the records whose geometry
   * transcodes.
   */
  method AssembleAreas(items: seq<Item>, transcode: string -> Option<GeoJson>, parse: string -> Option<real>)
    returns (r: Result<seq<Area>, Panic>)
    ensures r.Ok? <==> AllWellFormed(items)
    ensures r.Ok? ==> AllWellFormed(items) && r.value == Areas(items, transcode, parse)
    ensures r.Err? ==>
      && FirstMalformed(items).Some?
      && r.error == MissingField(FirstMalformed(items).value, MissingOf(items[FirstMalformed(items).value]))
  {
    var areas: seq<Area> := [];
    for i := 0 to |items|
      invariant AllWellFormed(items[..i])
      invariant areas == Areas(items[..i], transcode, parse)
    {
      var item := items[i];
      var geoId := Text(item, "GEOID");
      var countyName := Text(item, "County");
      var wktGeometry := Text(item, "Geometry");
      if geoId.None? || countyName.None? || wktGeometry.None? {
        FirstMalformedAt(items, i);
        return Err(MissingField(i, if geoId.None? then "GEOID" else if countyName.None? then "County" else "Geometry"));
      }
      var crimePercentile := CrimePercentile(item, parse);
      var geojson := transcode(wktGeometry.value);
      AreasSnoc(items[..i], item, transcode, parse);
      assert items[..i + 1] == items[..i] + [item];
      if geojson.Some? {
        areas := areas + [Area(geoId.value, countyName.value, crimePercentile, geojson.value)];
      }
    }
    assert items[..|items|] == items;
    return Ok(areas);
  }
}
