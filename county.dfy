/**
 * Choosing the target county from the first geocoding result, and
 * widening it to the set of counties whose records are fetched.
 */
module CountySelection {
  import opened Wrappers
  import opened CountyNames

  /** The classification tags of a geocoder address component (the ones a street address produces). */
  datatype PlaceType =
    | StreetNumber
    | Route
    | Neighborhood
    | Locality
    | Political
    | AdministrativeAreaLevel1
    | AdministrativeAreaLevel2
    | AdministrativeAreaLevel3
    | Country
    | PostalCode
    | OtherPlaceType(name: string)

  datatype AddressComponent = AddressComponent(longName: string, shortName: string, types: seq<PlaceType>)

  /** The component names a county-equivalent area. */
  predicate IsCounty(component: AddressComponent)
  {
    AdministrativeAreaLevel2 in component.types
  }

  /** The position of the first county component, in component order. */
  function FirstCounty(components: seq<AddressComponent>): (r: Option<nat>)
    ensures r.None? <==> forall j :: 0 <= j < |components| ==> !IsCounty(components[j])
    ensures r.Some? ==> r.value < |components| && IsCounty(components[r.value])
    ensures r.Some? ==> forall j :: 0 <= j < r.value ==> !IsCounty(components[j])
  {
    if components == [] then None
    else if IsCounty(components[0]) then Some(0)
    else match FirstCounty(components[1..])
      case None => None
      case Some(k) => Some(k + 1)
  }

  /** The target county: the first county component's long name with " County" removed. */
  function TargetCounty(components: seq<AddressComponent>): Option<string>
  {
    match FirstCounty(components)
    case None => None
    case Some(i) => Some(StripCounty(components[i].longName))
  }

  /**
   * The scan of `geocode`: components in order, each component's tags in
   * order, stopping at the first AdministrativeAreaLevel2 tag.
   */
  method SelectCounty(components: seq<AddressComponent>) returns (target: Option<string>)
    ensures target == TargetCounty(components)
    ensures target.None? <==> forall j :: 0 <= j < |components| ==> !IsCounty(components[j])
  {
    target := None;
    for i := 0 to |components|
      invariant target.None?
      invariant forall j :: 0 <= j < i ==> !IsCounty(components[j])
    {
      var component := components[i];
      for k := 0 to |component.types|
        invariant target.None?
        invariant forall m :: 0 <= m < k ==> component.types[m] != AdministrativeAreaLevel2
      {
        if component.types[k] == AdministrativeAreaLevel2 {
          target := Some(StripCounty(component.longName));
          break;
        }
      }
      if target.Some? {
        assert IsCounty(components[i]);
        break;
      }
    }
  }

  /** The neighbour list the map holds for `county`; a county without an entry has none. */
  function Neighbors(neighborMap: map<string, seq<string>>, county: string): seq<string>
  {
    if county in neighborMap then neighborMap[county] else []
  }

  /**
   * The counties to query: the target first, then its neighbours exactly as
   * the map lists them, duplicates included.
   */
  method CountiesToQuery(target: string, neighborMap: map<string, seq<string>>) returns (counties: seq<string>)
    ensures |counties| == 1 + |Neighbors(neighborMap, target)|
    ensures counties[0] == target
    ensures counties[1..] == Neighbors(neighborMap, target)
  {
    counties := [target];
    if target in neighborMap {
      counties := counties + neighborMap[target];
    }
  }
}
