/**
 * The records of the discovery screen: the raw place the Kakao Places
 * service returns, the `Shop` record the screen keeps, and the mapping
 * from one to the other.
 *
 * Numbers are not evaluated: the source converts the service's text fields
 * with JavaScript `Number(...)` (floating point), so a coordinate or a
 * distance is kept here as the unevaluated term that names the conversion.
 */
module Places {
  import opened Wrappers

  /** A latitude or longitude: either `Number(text)` of a service field, or a device reading. */
  datatype Coordinate =
    | NumberOf(text: string)
    | Degrees(value: real)

  datatype Location = Location(lat: Coordinate, lng: Coordinate)

  /** A distance in kilometres, written as `Number(metres) / 1000` of the service's text field. */
  datatype Distance = KmFromMetres(metres: string)

  /**
   * One place record as the Places service returns it. `distance` is
   * `None` when the field is undefined; all other fields are text.
   */
  datatype RawPlace = RawPlace(
    id: string,
    placeName: string,
    x: string,
    y: string,
    addressName: string,
    phone: string,
    categoryName: string,
    distance: Option<string>,
    placeUrl: string)

  /** The `Shop` record the screen lists. */
  datatype Shop = Shop(
    id: string,
    name: string,
    location: Location,
    address: string,
    phone: string,
    category: string,
    distance: Option<Distance>,
    placeUrl: string)

  /**
   * JavaScript truthiness of an optional text field: `undefined` and the
   * empty string are falsy, every other string is truthy, "0" included.
   */
  predicate Truthy(s: Option<string>): (b: bool)
    ensures b <==> s.Some? && |s.value| > 0
    ensures s == Some("0") ==> b
  {
    s.Some? && s.value != ""
  }

  /**
   * The raw-to-`Shop` mapping of both searches: the id is copied, `name`
   * comes from `place_name`, `category` from `category_name`, the latitude
   * from `y` and the longitude from `x`, and a distance is present exactly
   * when the raw distance is truthy.
   */
  function ToShop(p: RawPlace): (s: Shop)
    ensures s.id == p.id && s.name == p.placeName && s.category == p.categoryName
    ensures s.location == Location(NumberOf(p.y), NumberOf(p.x))
    ensures s.address == p.addressName && s.phone == p.phone && s.placeUrl == p.placeUrl
    ensures s.distance.Some? <==> p.distance.Some? && p.distance.value != ""
    ensures s.distance.Some? ==> s.distance.value.metres == p.distance.value
  {
    Shop(
      id := p.id,
      name := p.placeName,
      location := Location(lat := NumberOf(p.y), lng := NumberOf(p.x)),
      address := p.addressName,
      phone := p.phone,
      category := p.categoryName,
      distance := if Truthy(p.distance) then Some(KmFromMetres(p.distance.value)) else None,
      placeUrl := p.placeUrl)
  }

  /** `result.map(...)`: every raw place mapped to its record, in order. */
  function ToShops(ps: seq<RawPlace>): (r: seq<Shop>)
    ensures |r| == |ps|
    ensures forall i :: 0 <= i < |ps| ==> r[i] == ToShop(ps[i])
  {
    seq(|ps|, i requires 0 <= i < |ps| => ToShop(ps[i]))
  }

  /** What one keyword search reports: `OK` with its places, `ZERO_RESULT`, or any other status. */
  datatype SearchOutcome =
    | Ok(places: seq<RawPlace>)
    | ZeroResult
    | Failed

  datatype SortBy = ByDistance | ByAccuracy

  /** The search radius every request of the screen carries: 20 km. */
  const SearchRadiusMetres: nat := 20000

  datatype SearchRequest = SearchRequest(phrase: string, center: Location, radius: nat, sort: SortBy)

  /** The request the screen issues for one phrase around the user's location. */
  function RequestFor(phrase: string, center: Location): (r: SearchRequest)
    ensures r.phrase == phrase && r.center == center
    ensures r.radius == 20000 && r.sort == ByDistance
  {
    SearchRequest(phrase, center, SearchRadiusMetres, ByDistance)
  }
}
