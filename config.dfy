/** The configuration the handlers consult: the sign-out timesheet gate, the
    working hours, and the office list with its first-match geofence search.
    The great-circle distance is a parameter: any function of two points. */
module Config {
  import opened Values

  /** `REQUIRE_TIMESHEET_FOR_SIGNOUT` */
  const RequireTimesheetForSignout: bool := true

  /** `WORKING_HOURS_START` and `WORKING_HOURS_END`, hours of the day. */
  const WorkingHoursStart: int := 10
  const WorkingHoursEnd: int := 18

  /** An entry of `OFFICE_LOCATIONS`. */
  datatype Office = Office(name: string, latitude: real, longitude: real, radiusMeters: real)

  /** `OFFICE_LOCATIONS`, in list order. */
  const OfficeLocations: seq<Office> := [
    Office("Home Office", 12.9040293, 77.5634288, 1000.0),
    Office("college", 13.11734540585317, 77.6361704517549, 1000.0)
  ]

  /** Distance in meters between (lat1, lon1) and (lat2, lon2). */
  type Distance = (real, real, real, real) -> real

  /** The inclusive radius test of one office. */
  predicate Covers(o: Office, latitude: real, longitude: real, dist: Distance) {
    dist(latitude, longitude, o.latitude, o.longitude) <= o.radiusMeters
  }

  /** The name of the first office, in list order, whose radius covers the point. */
  function Locate(offices: seq<Office>, latitude: real, longitude: real, dist: Distance): (r: Option<string>)
    ensures r.Some? <==> exists i :: 0 <= i < |offices| && Covers(offices[i], latitude, longitude, dist)
  {
    if offices == [] then None
    else if Covers(offices[0], latitude, longitude, dist) then Some(offices[0].name)
    else Locate(offices[1..], latitude, longitude, dist)
  }

  /** `Config.is_within_office_location`: the loop over the offices with an early
      return, giving (True, name) of the first covering office or (False, None). */
  method IsWithinOfficeLocation(offices: seq<Office>, latitude: real, longitude: real, dist: Distance)
    returns (within: bool, office: Option<string>)
    ensures office == Locate(offices, latitude, longitude, dist)
    ensures within <==> office.Some?
  {
    for i := 0 to |offices|
      invariant Locate(offices, latitude, longitude, dist) == Locate(offices[i..], latitude, longitude, dist)
    {
      assert offices[i..][1..] == offices[i + 1..];
      if Covers(offices[i], latitude, longitude, dist) {
        return true, Some(offices[i].name);
      }
    }
    return false, None;
  }

  /** The result is exactly the first covering office: an office that covers the
      point wins when no earlier one does. */
  lemma {:induction false} LocateFirstMatch(offices: seq<Office>, latitude: real, longitude: real, dist: Distance, i: nat)
    requires i < |offices| && Covers(offices[i], latitude, longitude, dist)
    requires forall j :: 0 <= j < i ==> !Covers(offices[j], latitude, longitude, dist)
    ensures Locate(offices, latitude, longitude, dist) == Some(offices[i].name)
  {
    if i > 0 {
      LocateFirstMatch(offices[1..], latitude, longitude, dist, i - 1);
    }
  }

  /** Offices listed after the first covering one never change the result. */
  lemma {:induction false} LocateIgnoresLaterOffices(offices: seq<Office>, later: seq<Office>, latitude: real, longitude: real, dist: Distance)
    requires Locate(offices, latitude, longitude, dist).Some?
    ensures Locate(offices + later, latitude, longitude, dist) == Locate(offices, latitude, longitude, dist)
  {
    if !Covers(offices[0], latitude, longitude, dist) {
      assert (offices + later)[1..] == offices[1..] + later;
      LocateIgnoresLaterOffices(offices[1..], later, latitude, longitude, dist);
    }
  }

  /** A point at an office's own coordinates is inside it whenever the distance
      from a point to itself is 0 and the radius is not negative. */
  lemma AtOfficeIsInside(offices: seq<Office>, i: nat, dist: Distance)
    requires i < |offices| && offices[i].radiusMeters >= 0.0
    requires dist(offices[i].latitude, offices[i].longitude, offices[i].latitude, offices[i].longitude) == 0.0
    ensures Locate(offices, offices[i].latitude, offices[i].longitude, dist).Some?
  {
    assert Covers(offices[i], offices[i].latitude, offices[i].longitude, dist);
  }

  /** A point at the first configured office is placed in "Home Office". */
  lemma AtHomeOffice(dist: Distance)
    requires dist(12.9040293, 77.5634288, 12.9040293, 77.5634288) == 0.0
    ensures Locate(OfficeLocations, 12.9040293, 77.5634288, dist) == Some("Home Office")
  {
  }

  /** `Config.is_office_hours`: the hour of `now` lies in [10, 18). */
  function IsOfficeHours(now: int): (r: bool)
    ensures r <==> WorkingHoursStart * 3600 <= now % 86400 < WorkingHoursEnd * 3600
  {
    WorkingHoursStart <= HourOf(now) < WorkingHoursEnd
  }
}
