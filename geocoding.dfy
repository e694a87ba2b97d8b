/** `geocodeCity` (forward geocoding) and `getCityFromCoordinates` (reverse
    geocoding) of src/services/api.ts: each shapes one Nominatim reply into
    a `GeocodingResult`. */
module Geocoding {
  import opened Wrappers
  import opened Text
  import opened Places

  /** The `address` object of a Nominatim place. */
  datatype Address = Address(
    city: Option<string>,
    town: Option<string>,
    village: Option<string>,
    suburb: Option<string>,
    municipality: Option<string>,
    county: Option<string>,
    state: Option<string>,
    country: Option<string>)

  /** One match of a forward search. */
  datatype Place = Place(
    name: Option<string>,
    lat: Coordinate,
    lon: Coordinate,
    address: Option<Address>)

  /** The body of a reverse lookup. */
  datatype ReverseData = ReverseData(address: Option<Address>)

  datatype GeocodingResult = GeocodingResult(
    name: string,
    lat: Coordinate,
    lon: Coordinate,
    country: string,
    region: string)

  /** What `geocodeCity` throws: 'City not found', or the request's own error. */
  datatype GeocodeError = CityNotFound | RequestFailed

  const CurrentLocation := "Ubicación actual"

  /** Reading `address?.x` of a missing address gives `undefined`, as if
      the address had no properties. */
  const NoAddress := Address(None, None, None, None, None, None, None, None)

  /** `address?.country || ''`. */
  function CountryOf(address: Option<Address>): string {
    OrElse(address.GetOr(NoAddress).country, "")
  }

  /** `address?.state || address?.county || ''`. */
  function RegionOf(address: Option<Address>): (r: string)
    ensures var a := address.GetOr(NoAddress);
      r == if Truthy(a.state) then a.state.value else if Truthy(a.county) then a.county.value else ""
  {
    var a := address.GetOr(NoAddress);
    var cands := [a.state, a.county];
    assert cands[0] == a.state && cands[1] == a.county;
    FirstTruthy(cands, "")
  }

  /** The place-name candidates of a reverse lookup, most specific first. */
  function NameCandidates(address: Option<Address>): seq<Option<string>> {
    var a := address.GetOr(NoAddress);
    [a.city, a.town, a.village, a.suburb, a.municipality, a.county]
  }

  /** `geocodeCity`: the first match, named by its own name or else by the
      query; no match is 'City not found'; a failed request is rethrown. */
  function GeocodeCity(cityName: string, reply: Reply<seq<Place>>): (r: Result<GeocodingResult, GeocodeError>)
    ensures reply.Fail? <==> r == Failure(RequestFailed)
    ensures reply == Ok([]) <==> r == Failure(CityNotFound)
    ensures reply.Ok? && reply.value != [] ==>
      && r.Success?
      && r.value.lat == reply.value[0].lat && r.value.lon == reply.value[0].lon
      && r.value.name == (if Truthy(reply.value[0].name) then reply.value[0].name.value else cityName)
      && var a := reply.value[0].address.GetOr(NoAddress);
         && r.value.country == (if Truthy(a.country) then a.country.value else "")
         && r.value.region == (if Truthy(a.state) then a.state.value
                               else if Truthy(a.county) then a.county.value else "")
  {
    match reply
    case Fail => Failure(RequestFailed)
    case Ok(places) =>
      if |places| > 0 then
        var location := places[0];
        Success(GeocodingResult(
          OrElse(location.name, cityName),
          location.lat,
          location.lon,
          CountryOf(location.address),
          RegionOf(location.address)))
      else Failure(CityNotFound)
  }

  /** `getCityFromCoordinates`: never fails; any error gives the degraded
      'Ubicación actual' result at the requested point. */
  function CityFromCoordinates(lat: Coordinate, lon: Coordinate, reply: Reply<ReverseData>): (r: GeocodingResult)
    ensures r.lat == lat && r.lon == lon
    ensures r.name != ""
    ensures reply.Fail? ==> r == GeocodingResult(CurrentLocation, lat, lon, "", "")
    ensures reply.Ok? ==>
      var a := reply.value.address.GetOr(NoAddress);
      && r.country == (if Truthy(a.country) then a.country.value else "")
      && r.region == (if Truthy(a.state) then a.state.value
                      else if Truthy(a.county) then a.county.value else "")
  {
    match reply
    case Fail => GeocodingResult(CurrentLocation, lat, lon, "", "")
    case Ok(data) =>
      GeocodingResult(
        FirstTruthy(NameCandidates(data.address), CurrentLocation),
        lat,
        lon,
        CountryOf(data.address),
        RegionOf(data.address))
  }

  /** The name of a reverse lookup is the first present of city, town,
      village, suburb, municipality and county, and 'Ubicación actual' when
      none is present. */
  lemma ReverseNamePriority(lat: Coordinate, lon: Coordinate, data: ReverseData)
    ensures var name := CityFromCoordinates(lat, lon, Ok(data)).name;
      var cs := NameCandidates(data.address);
      && ((forall i :: 0 <= i < |cs| ==> !Truthy(cs[i])) ==> name == CurrentLocation)
      && (forall i :: 0 <= i < |cs| && Truthy(cs[i]) && (forall j :: 0 <= j < i ==> !Truthy(cs[j])) ==>
            name == cs[i].value)
  {
    var cs := NameCandidates(data.address);
    var name := CityFromCoordinates(lat, lon, Ok(data)).name;
    forall i | 0 <= i < |cs| && Truthy(cs[i]) && (forall j :: 0 <= j < i ==> !Truthy(cs[j]))
      ensures name == cs[i].value
    {
      var k :| 0 <= k < |cs| && Truthy(cs[k]) && name == cs[k].value &&
               forall j :: 0 <= j < k ==> !Truthy(cs[j]);
      assert k == i;
    }
  }

  /** A reply without an address reads like a failed lookup. */
  lemma ReverseWithoutAddressIsFallback(lat: Coordinate, lon: Coordinate)
    ensures CityFromCoordinates(lat, lon, Ok(ReverseData(None))) == CityFromCoordinates(lat, lon, Fail)
  {
  }
}
