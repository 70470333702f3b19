/**
 * The drive estimate from the Redmond clinic to another clinic
 * (`getDriveTimeMiles`). The routing provider itself is an oracle: the
 * model receives, per call, either nothing (the request threw, the status
 * was not 2xx, or the body had no `routes[0]`) or the first route.
 */
module Routing {
  import opened Wrappers
  import opened JsNumber

  datatype Coord = Coord(lat: real, lng: real)

  /** Origin of every routing request: the Redmond urgent-care clinic. */
  const RedmondOrigin: Coord := Coord(47.6821696, -122.1238347)

  /** `routes[0]` of a routing reply: duration in seconds, distance in meters. */
  datatype RawRoute = RawRoute(duration: real, distance: real)

  /** Drive time in whole minutes and distance in miles to one decimal. */
  datatype DriveEstimate = DriveEstimate(minutes: int, miles: real)

  const MilesPerMeter: real := 0.000621371

  /**
   * minutes = Math.round(duration / 60); miles = Math.round(distance * 0.000621371 * 10) / 10.
   * Minutes is the whole number of minutes nearest the duration, miles the tenth of a mile
   * nearest the distance, and neither is negative for a non-negative route.
   */
  function DriveFromRoute(route: RawRoute): (e: DriveEstimate)
    ensures e.minutes as real - 0.5 <= route.duration / 60.0 < e.minutes as real + 0.5
    ensures route.duration >= 0.0 ==> e.minutes >= 0
    ensures (e.miles * 10.0).Floor as real == e.miles * 10.0
    ensures e.miles - 0.05 <= route.distance * MilesPerMeter < e.miles + 0.05
    ensures route.distance >= 0.0 ==> e.miles >= 0.0
  {
    DriveEstimate(Round(route.duration / 60.0), Round(route.distance * MilesPerMeter * 10.0) as real / 10.0)
  }

  /** `drive?.minutes ?? null` and `drive?.miles ?? null` come from this: no route, no estimate. */
  function DriveFromReply(reply: Option<RawRoute>): (e: Option<DriveEstimate>)
    ensures e.Some? <==> reply.Some?
    ensures reply.Some? ==> e.value == DriveFromRoute(reply.value)
  {
    match reply
    case None => None
    case Some(route) => Some(DriveFromRoute(route))
  }

  /** A 900 s, 4000 m route is a 15-minute, 2.5-mile drive. */
  lemma FifteenMinuteExample()
    ensures DriveFromRoute(RawRoute(900.0, 4000.0)) == DriveEstimate(15, 2.5)
  {
    var e := DriveFromRoute(RawRoute(900.0, 4000.0));
    assert e.minutes == 15;
    assert Round(4000.0 * MilesPerMeter * 10.0) == 25;
  }
}
