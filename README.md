# txcrimemap geocode pipeline, in Dafny

This project models the request pipeline of the `POST /geocode` handler of
txcrimemap (`src/modules/helper_functions.rs`). The handler takes a street
address and geocodes it. It picks the county of the first geocoding
candidate and widens it to that county's neighbours from a county
adjacency map. It then fetches every county's region records from the
DynamoDB table's county index, page by page. Last, it answers with the
candidate's center point and the regions whose WKT geometry converts to
GeoJSON.

The outside world enters the model as values:

- the geocoder's outcome for the address (`Result<seq<GeocodingResult>, string>`);
- the neighbour map's load outcome (`Result<map<string, seq<string>>, string>`);
- the table's county index, `Dynamo.CountyIndex`: a function from stored county name and optional
  exclusive start key to a page or a store error;
- the WKT-to-GeoJSON transcoder, `string -> Option<GeoJson>`;
- the float parser, `string -> Option<real>`.

Modules:

- `Wrappers` (wrappers.dfy): Option and Result.
- `CountyNames` (names.dfy): the removal of `" County"` (Rust's `str::replace`) and the stored
  name `"<county> County"`.
- `CountySelection` (county.dfy): the county pick and the list of counties to query.
- `Dynamo` (dynamo.dfy): `query_dynamo`. It holds the pagination loop of one county task and the
  fail-fast join over all counties.
- `AreaAssembly` (areas.dfy): field extraction, percentile default, transcoding filter.
- `Pipeline` (pipeline.dfy): the handler, stage by stage, with its outcome for every input.

The handler's loops are methods with loop invariants. Each method is proved equal to a
specification function (`TargetCounty`, `PagesFrom`/`CountyQuery`, `QueryAll`, `Areas`). The
lemmas state what those functions guarantee.

Three behaviours of the code matter here:

- it removes every `" County"` in the long name, not only a trailing one;
- the join keeps county order, because `join_all` yields results in input order, so the areas
  come in county order;
- a record missing `GEOID`, `County` or `Geometry` makes the handler panic instead of being
  skipped.

## Model

| member | source | states |
|---|---|---|
| CountyNames.RemoveAllAbsent | src/modules/helper_functions.rs:170 | a long name without " County" is kept unchanged as the county identifier |
| CountyNames.StripAcrossSuffix | src/modules/helper_functions.rs:170 | every " County" between two parts of a name is removed, and it cannot overlap the text around it |
| CountyNames.StoreNameRoundTrip | src/modules/helper_functions.rs:68 | for a long name "<n> County" (n without " County") the county is n, and the table is queried under the long name itself |
| CountySelection.FirstCounty | src/modules/helper_functions.rs:166-177 | the chosen component is the first one, in component order, tagged AdministrativeAreaLevel2; none is chosen iff no component is tagged |
| CountySelection.SelectCounty | src/modules/helper_functions.rs:166-178 | the nested scan with breaks yields the first county component's name with " County" removed, and None exactly when no component is tagged |
| CountySelection.CountiesToQuery | src/modules/helper_functions.rs:195-198 | the county list is the target followed by exactly the map's neighbour list (none when the map has no entry), so its length is 1 plus the neighbours, duplicates kept |
| Dynamo.QueryCounty | src/modules/helper_functions.rs:70-106 | the pagination loop of one county task, under the name "<county> County", returns what the page chain yields |
| Dynamo.PaginationCollectsEveryPage | src/modules/helper_functions.rs:72-100 | when the store answers the first request (no start key) and each request carrying the previous page's key with the given pages, the last one without a key, the result is all pages' items concatenated in page order |
| Dynamo.PageFailureAbortsCounty | src/modules/helper_functions.rs:89 | a failing request aborts the county with the store's error, and the pages already read are dropped |
| Dynamo.AllItems | src/modules/helper_functions.rs:91-104 | a county whose pages hold no items yields an empty list (not an error); pages without items contribute nothing |
| Dynamo.QueryDynamo | src/modules/helper_functions.rs:53-119 | one task per county, then the join, give the specified aggregate of the per-county results |
| Dynamo.AggregateSucceeds | src/modules/helper_functions.rs:111-118 | the join succeeds iff every county succeeds, and then returns every county's items in county order |
| Dynamo.AggregateFirstError | src/modules/helper_functions.rs:113-116 | if some county fails, the join returns the error of the first failing county in list order and no partial items |
| Dynamo.QueryAllSplits | src/modules/helper_functions.rs:111-118 | the first county's items come before those of the following counties; its failure is the whole call's failure |
| AreaAssembly.CrimePercentile | src/modules/helper_functions.rs:238-242 | a missing, non-number or unparseable WeightedCrimePercentile becomes 0.0, otherwise the parsed value |
| AreaAssembly.Areas | src/modules/helper_functions.rs:217-263 | no more areas than records, and no areas at all iff no record's geometry transcodes |
| AreaAssembly.AreasAppend | src/modules/helper_functions.rs:219-263 | filtering keeps record order: the areas of two runs of records are the areas of each, in turn |
| AreaAssembly.AreasComeFromRecords | src/modules/helper_functions.rs:255-262 | each area is some record's GEOID and County unchanged, with its percentile and its transcoded geometry |
| AreaAssembly.FirstMalformed | src/modules/helper_functions.rs:219-236 | the record the assembly panics on is the first one missing a string field GEOID, County or Geometry |
| AreaAssembly.AssembleAreas | src/modules/helper_functions.rs:217-263 | the loop panics iff some record misses a string field, at the first such record and field in unwrap order, otherwise pushes exactly the areas of the specification |
| Pipeline.AreasFollowCountyOrder | src/modules/helper_functions.rs:210-263 | the response's areas are the target county's areas followed by those of the counties after it |
| Pipeline.Geocode | src/modules/helper_functions.rs:144-283 | the handler answers 500 on a geocoder error, 404 on no candidate, 404 on no county component, 500 on a neighbour-map error, 500 on a store error, panics on a malformed record, 404 on no area left, otherwise 200 with the first candidate's center and the areas |

## Left out

- `wkt_to_geojson` (src/modules/helper_functions.rs:286-295): the WKT parsing and GeoJSON conversion belong to the `wkt`, `geo` and `geojson` crates; the model takes the transcoder as a function returning an Option.
- `get_client`, `download_object` and `load_neighbor_map_from_s3`: S3 I/O and JSON decoding; the model takes the neighbour map's load outcome as an input, with any retrieval or parse error as one error value.
- The Google Maps client (its construction, whose failure panics through `expect`, and the geocoding call) and the construction of the AWS configuration and DynamoDB client: network and configuration; the geocoder's outcome is an input and the table is the `CountyIndex` function.
- `tokio::spawn` and `join_all`: the tasks run one after the other in the model. The join consumes results in county order, so the result does not depend on the order in which tasks finish. A panicking task (the `JoinError` unwrap) is not modelled.
- Floating point: the latitude and longitude conversions (`to_f64().unwrap()`) pass the values through as reals, and `parse::<f64>` is the parser parameter; rounding is not modelled.
- Dynamo.QueryCounty: requires the store to paginate to an end (`Paginates`: each continuation key lowers a count of remaining pages). A store that returned continuation keys forever would make the source loop run forever; the model does not cover that case.
- The number of requests a county issues is not an output of the model. The page chain of `Dynamo.Answers` fixes which requests are made.
- The branch on an empty result list at src/modules/helper_functions.rs:102-104 returns the same value as the code after it, so the model has a single return.
- Logging (`println!`, `eprintln!`), the router, CORS, compression and tracing in src/main.rs, and the landing page of src/modules/routes.rs.
- DynamoDB attribute values are reduced to string, number, boolean and null; the response's area objects are the `Area` datatype rather than JSON values.
