/** The hook the main screen uses to obtain its nearby list. It only computes
    a value: it starts no playback (voice is played only on a button press). */
module UseNearbyAccidents {
  import opened Wrappers
  import opened Accidents
  import opened Nearby

  /** `useNearbyAccidents`: nothing without a position or without accidents,
      otherwise `getNearbyAccidents` at the current position. */
  function UseNearbyAccidents(position: Option<GeoPosition>, accidents: seq<Accident>,
                              thresholdMeters: real, dist: DistanceFn)
    : (r: seq<AccidentWithDistance>)
    ensures position.None? ==> r == []
    ensures accidents == [] ==> r == []
    // the guard changes nothing when a position is known: an empty list is
    // already filtered to the empty list
    ensures position.Some? ==>
      r == GetNearbyAccidents(accidents, position.value.latitude, position.value.longitude,
                              thresholdMeters, dist)
    ensures forall i :: 0 <= i < |r| ==> r[i].distanceMeters <= thresholdMeters
    ensures forall i, j :: 0 <= i < j < |r| ==> r[i].distanceMeters <= r[j].distanceMeters
  {
    if position.None? || |accidents| == 0 then []
    else GetNearbyAccidents(accidents, position.value.latitude, position.value.longitude,
                            thresholdMeters, dist)
  }
}
