/** The records the alerter works on. */
module Accidents {
  import opened Wrappers

  /** One recorded accident or near miss. Coordinates are degrees; JavaScript
      numbers are modelled as reals. */
  datatype Accident = Accident(
    id: string,
    latitude: real,
    longitude: real,
    /** the text read out by the voice alert */
    description: string,
    /** "YYYY-MM-DD" or "YYYY-MM" */
    occurredAt: string,
    category: string)

  /** An accident as seen from the current position: every field of the
      accident, plus its distance in meters. */
  datatype AccidentWithDistance = AccidentWithDistance(accident: Accident, distanceMeters: real)

  /** A position fix from the location adapter. */
  datatype GeoPosition = GeoPosition(
    latitude: real,
    longitude: real,
    accuracy: Option<real>,
    timestamp: Option<int>)

  /** The shape of `distanceMeters(lat1, lon1, lat2, lon2)`. Its haversine
      body is not part of this model: every operation that measures distance
      receives the function as a parameter and is proved for all of them. */
  type DistanceFn = (real, real, real, real) -> real

  /** The sort key of a ranked accident. */
  function DistanceOf(a: AccidentWithDistance): real {
    a.distanceMeters
  }

  /** The accident annotated with its distance from (`lat`, `lon`). */
  function Measure(a: Accident, lat: real, lon: real, dist: DistanceFn): AccidentWithDistance {
    AccidentWithDistance(a, dist(lat, lon, a.latitude, a.longitude))
  }
}
