/**
 * Reverse geocoding (app/services/geocodingService.ts). The three awaited
 * calls into the platform location service are abstract inputs: each either
 * returns a value or throws. What remains is which calls are made, in what
 * order, and the text returned.
 */
module Geocoding {
  import opened Wrappers

  datatype Call<T> = Returned(value: T) | Threw

  /** A reverse-geocoded place; every field may be missing. */
  datatype Place = Place(
    name: Option<string>,
    street: Option<string>,
    city: Option<string>,
    region: Option<string>,
    country: Option<string>)

  /** What the location service does when asked, call by call. */
  datatype LocationService = LocationService(
    permission: Call<string>,          // requestForegroundPermissionsAsync: the status
    networkProvider: Call<()>,         // enableNetworkProviderAsync
    reverseGeocode: Call<seq<Place>>)  // reverseGeocodeAsync: the places found

  /** The calls `fetchAddress` makes, in the order it makes them. */
  datatype ServiceCall =
    | RequestPermission
    | EnableNetworkProvider
    | ReverseGeocode(latitude: real, longitude: real)

  datatype Answer = Answer(text: string, calls: seq<ServiceCall>)

  const PermissionDenied := "Location permission denied"
  const NoAddressFound := "No address found"
  const UnableToGetAddress := "Unable to get address"

  /** `field || ""`. */
  function OrEmpty(field: Option<string>): (s: string)
    ensures field.Some? ==> s == field.value
    ensures field.None? ==> s == ""
  {
    field.GetOr("")
  }

  /** The one-line address built from a found place. */
  function FormatPlace(p: Place): (line: string) {
    OrEmpty(p.name) + " " + OrEmpty(p.street) + ", " + OrEmpty(p.city) + ", " +
    OrEmpty(p.region) + ", " + OrEmpty(p.country)
  }

  /** `fetchAddress(lat, long)`. */
  function FetchAddress(lat: real, long: real, service: LocationService): (a: Answer)
    ensures a.text != ""
    ensures |a.calls| >= 1 && a.calls[0] == RequestPermission
    ensures ReverseGeocode(lat, long) in a.calls <==>
              service.permission == Returned("granted") && service.networkProvider.Returned?
    ensures a.text == PermissionDenied <==>
              service.permission.Returned? && service.permission.value != "granted"
    ensures a.text == PermissionDenied ==> a.calls == [RequestPermission]
    ensures a.text == UnableToGetAddress <==>
              service.permission.Threw? ||
              (service.permission == Returned("granted") &&
               (service.networkProvider.Threw? || service.reverseGeocode.Threw?))
    ensures a.text == NoAddressFound <==>
              service.permission == Returned("granted") && service.networkProvider.Returned? &&
              service.reverseGeocode == Returned([])
    ensures service.permission == Returned("granted") && service.networkProvider.Returned? &&
            service.reverseGeocode.Returned? && |service.reverseGeocode.value| > 0 ==>
              a.text == FormatPlace(service.reverseGeocode.value[0])
  {
    match service.permission
    case Threw => Answer(UnableToGetAddress, [RequestPermission])
    case Returned(status) =>
      if status != "granted" then Answer(PermissionDenied, [RequestPermission])
      else
        match service.networkProvider
        case Threw => Answer(UnableToGetAddress, [RequestPermission, EnableNetworkProvider])
        case Returned(_) =>
          var calls := [RequestPermission, EnableNetworkProvider, ReverseGeocode(lat, long)];
          match service.reverseGeocode
          case Threw => Answer(UnableToGetAddress, calls)
          case Returned(places) =>
            if |places| == 0 then Answer(NoAddressFound, calls)
            else
              FormattedIsNoMessage(places[0]);
              Answer(FormatPlace(places[0]), calls)
  }

  /**
   * A formatted place always holds a comma, and none of the three fixed
   * messages does, so the text alone tells a found place from a failure.
   */
  lemma FormattedIsNoMessage(p: Place)
    ensures ',' in FormatPlace(p)
    ensures FormatPlace(p) !in {PermissionDenied, NoAddressFound, UnableToGetAddress}
  {
    var s := FormatPlace(p);
    var k := |OrEmpty(p.name) + " " + OrEmpty(p.street)|;
    assert s[k] == ',';
    assert ',' !in PermissionDenied && ',' !in NoAddressFound && ',' !in UnableToGetAddress;
  }

  /** The pieces of `s` between occurrences of `sep`, as `s.split(sep)` gives them. */
  function Split(s: string, sep: char): (parts: seq<string>)
    ensures |parts| >= 1
    decreases |s|
  {
    if s == [] then [""]
    else
      var rest := Split(s[1..], sep);
      if s[0] == sep then [""] + rest else [[s[0]] + rest[0]] + rest[1..]
  }

  lemma {:induction false} SplitNoSeparator(a: string, sep: char)
    requires sep !in a
    ensures Split(a, sep) == [a]
    decreases |a|
  {
    if a != [] {
      SplitNoSeparator(a[1..], sep);
      assert [a[0]] + a[1..] == a;
    }
  }

  lemma {:induction false} SplitAtSeparator(a: string, sep: char, b: string)
    requires sep !in a
    ensures Split(a + [sep] + b, sep) == [a] + Split(b, sep)
    decreases |a|
  {
    if a == [] {
      assert a + [sep] + b == [sep] + b;
      assert ([sep] + b)[1..] == b;
    } else {
      SplitAtSeparator(a[1..], sep, b);
      assert (a + [sep] + b)[1..] == a[1..] + [sep] + b;
      assert [a[0]] + a[1..] == a;
    }
  }

  /** The address line regrouped around its three commas. */
  lemma FormatPlaceShape(p: Place)
    ensures FormatPlace(p) ==
              (OrEmpty(p.name) + " " + OrEmpty(p.street)) + [','] +
              ((" " + OrEmpty(p.city)) + [','] +
               ((" " + OrEmpty(p.region)) + [','] + (" " + OrEmpty(p.country))))
  {
    var n, st, c, r, co := OrEmpty(p.name), OrEmpty(p.street), OrEmpty(p.city), OrEmpty(p.region), OrEmpty(p.country);
    assert ", " == [','] + " ";
    var head := n + " " + st;
    assert head + ", " + c == head + [','] + (" " + c);
    assert head + ", " + c + ", " + r == head + [','] + ((" " + c) + [','] + (" " + r));
  }

  predicate NoComma(field: Option<string>) {
    ',' !in OrEmpty(field)
  }

  /**
   * When no field holds a comma, splitting the address at commas gives back
   * "name street" and the city, region and country, each after one space.
   */
  lemma FormatPlaceSplits(p: Place)
    requires NoComma(p.name) && NoComma(p.street) && NoComma(p.city) && NoComma(p.region) && NoComma(p.country)
    ensures Split(FormatPlace(p), ',') ==
              [OrEmpty(p.name) + " " + OrEmpty(p.street),
               " " + OrEmpty(p.city), " " + OrEmpty(p.region), " " + OrEmpty(p.country)]
  {
    var head := OrEmpty(p.name) + " " + OrEmpty(p.street);
    var city, region, country := " " + OrEmpty(p.city), " " + OrEmpty(p.region), " " + OrEmpty(p.country);
    var tail3 := region + [','] + country;
    var tail2 := city + [','] + tail3;
    FormatPlaceShape(p);
    SplitAtSeparator(head, ',', tail2);
    SplitAtSeparator(city, ',', tail3);
    SplitAtSeparator(region, ',', country);
    SplitNoSeparator(country, ',');
  }
}
