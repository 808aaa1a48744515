/** `is_within_office_geofence` of `app.py` and `app_firebase.py`: the request's
    coordinates, when both are present and both convert to numbers, are tested
    against the configured offices. */
module Geofence {
  import opened Values
  import opened Config

  /** A coordinate as the request carries it: absent, or a value together with
      what `float()` makes of it (None when the conversion raises). */
  datatype Coordinate = Missing | Given(asFloat: Option<real>)

  /** The coordinate is present and converts to a number. */
  predicate Parses(c: Coordinate) {
    c.Given? && c.asFloat.Some?
  }

  /** True exactly when both coordinates convert and some office covers the
      point; a missing or unconvertible coordinate is outside. */
  function IsWithinOfficeGeofence(lat: Coordinate, lon: Coordinate, offices: seq<Office>, dist: Distance): (r: bool)
    ensures !Parses(lat) || !Parses(lon) ==> !r
    ensures Parses(lat) && Parses(lon) ==>
      (r <==> exists i :: 0 <= i < |offices| && Covers(offices[i], lat.asFloat.value, lon.asFloat.value, dist))
  {
    if lat.Missing? || lon.Missing? then false
    else if lat.asFloat.None? || lon.asFloat.None? then false
    else Locate(offices, lat.asFloat.value, lon.asFloat.value, dist).Some?
  }

  /** The handler-side check: the coordinates are converted and handed to the
      office search of the configuration. */
  method CheckGeofence(lat: Coordinate, lon: Coordinate, offices: seq<Office>, dist: Distance) returns (within: bool)
    ensures within == IsWithinOfficeGeofence(lat, lon, offices, dist)
  {
    if lat.Missing? || lon.Missing? {
      return false;
    }
    if lat.asFloat.None? || lon.asFloat.None? {
      return false;
    }
    var office;
    within, office := IsWithinOfficeLocation(offices, lat.asFloat.value, lon.asFloat.value, dist);
  }
}
