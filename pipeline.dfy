/**
 * The `POST /geocode` handler: geocode the address, pick the county, widen
 * it to its neighbours, fetch every county's region records, and answer
 * with the center point and the areas whose geometry transcodes.
 *
 * The outside world enters as values: the geocoder's outcome for the
 * address, the neighbour map's load outcome, the table's county index, the
 * WKT-to-GeoJSON transcoder and the float parser.
 */
module Pipeline {
  import opened Wrappers
  import opened CountySelection
  import opened Dynamo
  import opened AreaAssembly

  datatype Location = Location(lat: real, lng: real)

  /** One geocoding candidate: its location and its address components, in order. */
  datatype GeocodingResult = GeocodingResult(location: Location, addressComponents: seq<AddressComponent>)

  datatype Center = Center(lat: real, lon: real)

  datatype GeocodeResponse = GeocodeResponse(center: Center, areas: seq<Area>)

  /** The error statuses the handler answers with: 404 and 500. */
  datatype StatusCode = NotFound | InternalServerError

  /** 200 with the response, an error status, or the request task panicking in a field unwrap. */
  datatype Reply = Respond(response: GeocodeResponse) | Fail(status: StatusCode) | Panicked(panic: Panic)

  /** The handler's center point: the first candidate's location. */
  function CenterOf(result: GeocodingResult): Center
  {
    Center(result.location.lat, result.location.lng)
  }

  /**
   * The areas of the response follow the county list: those of the target
   * county come first, then those of the counties after it.
   */
  lemma AreasFollowCountyOrder(
    index: CountyIndex, county: string, rest: seq<string>,
    transcode: string -> Option<GeoJson>, parse: string -> Option<real>)
    requires Paginates(index)
    requires QueryAll(index, [county] + rest).Ok? && AllWellFormed(QueryAll(index, [county] + rest).value)
    ensures CountyQuery(index, county).Ok? && AllWellFormed(CountyQuery(index, county).value)
    ensures QueryAll(index, rest).Ok? && AllWellFormed(QueryAll(index, rest).value)
    ensures Areas(QueryAll(index, [county] + rest).value, transcode, parse) ==
      Areas(CountyQuery(index, county).value, transcode, parse) + Areas(QueryAll(index, rest).value, transcode, parse)
  {
    QueryAllSplits(index, county, rest);
    var first, others := CountyQuery(index, county).value, QueryAll(index, rest).value;
    assert forall i :: 0 <= i < |first| ==> first[i] == (first + others)[i];
    assert forall i :: 0 <= i < |others| ==> others[i] == (first + others)[|first| + i];
    AreasAppend(first, others, transcode, parse);
  }

  /**
   * The pipeline, stage by stage. Each stage's failure ends the request,
   * in this order: geocoder error (500), no candidate (404), no county
   * component (404), neighbour map error (500), store error (500), a record
   * missing a string field (panic), no area left (404).
   */
  method Geocode(
    geocoding: Result<seq<GeocodingResult>, string>,
    neighborMap: Result<map<string, seq<string>>, string>,
    index: CountyIndex,
    transcode: string -> Option<GeoJson>,
    parse: string -> Option<real>)
    returns (reply: Reply)
    requires Paginates(index)
    ensures geocoding.Err? ==> reply == Fail(InternalServerError)
    ensures geocoding.Ok? && geocoding.value == [] ==> reply == Fail(NotFound)
    ensures geocoding.Ok? && geocoding.value != [] ==>
      var target := TargetCounty(geocoding.value[0].addressComponents);
      && (target.None? ==> reply == Fail(NotFound))
      && (target.Some? && neighborMap.Err? ==> reply == Fail(InternalServerError))
      && (target.Some? && neighborMap.Ok? ==>
            var items := QueryAll(index, [target.value] + Neighbors(neighborMap.value, target.value));
            && (items.Err? ==> reply == Fail(InternalServerError))
            && (items.Ok? && !AllWellFormed(items.value) ==>
                  reply.Panicked? && Some(reply.panic.record) == FirstMalformed(items.value))
            && (items.Ok? && AllWellFormed(items.value) ==>
                  var areas := Areas(items.value, transcode, parse);
                  reply == if areas == [] then Fail(NotFound)
                           else Respond(GeocodeResponse(CenterOf(geocoding.value[0]), areas))))
  {
    if geocoding.Err? {
      return Fail(InternalServerError);
    }
    var results := geocoding.value;
    if |results| == 0 {
      return Fail(NotFound);
    }
    var first := results[0];
    var center := Center(first.location.lat, first.location.lng);

    var target := SelectCounty(first.addressComponents);
    if target.None? {
      return Fail(NotFound);
    }

    if neighborMap.Err? {
      return Fail(InternalServerError);
    }
    var countiesToQuery := CountiesToQuery(target.value, neighborMap.value);
    assert countiesToQuery == [target.value] + Neighbors(neighborMap.value, target.value);

    var items := QueryDynamo(index, countiesToQuery);
    if items.Err? {
      return Fail(InternalServerError);
    }

    var areas := AssembleAreas(items.value, transcode, parse);
    if areas.Err? {
      return Panicked(areas.error);
    }
    if areas.value == [] {
      return Fail(NotFound);
    }
    return Respond(GeocodeResponse(center, areas.value));
  }
}
