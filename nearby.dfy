/** The proximity filter: which recorded accidents are within the alert
    radius of the current position, nearest first. */
module Nearby {
  import opened Accidents
  import opened StableSort

  /** Every accident annotated with its distance from (`lat`, `lon`), in input
      order (the `map` step, which builds a fresh array). */
  function WithDistances(accidents: seq<Accident>, lat: real, lon: real, dist: DistanceFn)
    : (r: seq<AccidentWithDistance>)
    ensures |r| == |accidents|
    ensures forall i :: 0 <= i < |r| ==> r[i] == Measure(accidents[i], lat, lon, dist)
  {
    if accidents == [] then []
    else [Measure(accidents[0], lat, lon, dist)] + WithDistances(accidents[1..], lat, lon, dist)
  }

  /** The entries whose distance is at most `threshold` (the `filter` step,
      inclusive boundary), in their input order. */
  function Within(s: seq<AccidentWithDistance>, threshold: real): (r: seq<AccidentWithDistance>)
    ensures |r| <= |s|
    ensures forall i :: 0 <= i < |r| ==> r[i].distanceMeters <= threshold
    ensures forall x :: multiset(r)[x] == if x.distanceMeters <= threshold then multiset(s)[x] else 0
  {
    if s == [] then []
    else
      var t := Within(s[1..], threshold);
      assert s == [s[0]] + s[1..];
      if s[0].distanceMeters <= threshold then [s[0]] + t else t
  }

  /** Filtering keeps, for each distance within the threshold, the whole group
      of entries at that distance in input order, and drops every other group. */
  lemma {:induction false} WithinTies(s: seq<AccidentWithDistance>, threshold: real, k: real)
    ensures WithKey(Within(s, threshold), DistanceOf, k)
      == if k <= threshold then WithKey(s, DistanceOf, k) else []
  {
    if s != [] {
      var t := Within(s[1..], threshold);
      WithinTies(s[1..], threshold, k);
      WithKeyCons(s[0], s[1..], DistanceOf, k);
      assert s == [s[0]] + s[1..];
      if s[0].distanceMeters <= threshold {
        WithKeyCons(s[0], t, DistanceOf, k);
      }
    }
  }

  /** `getNearbyAccidents`: annotate, keep those within `thresholdMeters`, and
      stable-sort ascending by distance. */
  function GetNearbyAccidents(accidents: seq<Accident>, currentLat: real, currentLon: real,
                              thresholdMeters: real, dist: DistanceFn)
    : (r: seq<AccidentWithDistance>)
    ensures |r| <= |accidents|
    ensures accidents == [] ==> r == []
    // inclusive threshold
    ensures forall i :: 0 <= i < |r| ==> r[i].distanceMeters <= thresholdMeters
    // nearest first
    ensures forall i, j :: 0 <= i < j < |r| ==> r[i].distanceMeters <= r[j].distanceMeters
    // exactly the qualifying entries, each as often as in the input
    ensures forall x :: multiset(r)[x] ==
                          if x.distanceMeters <= thresholdMeters
                          then multiset(WithDistances(accidents, currentLat, currentLon, dist))[x]
                          else 0
  {
    SortBy(Within(WithDistances(accidents, currentLat, currentLon, dist), thresholdMeters), DistanceOf)
  }

  /** Each entry of the result is one of the input accidents, unchanged, with
      its own distance from the current position; and no accident within the
      radius is missing. */
  lemma NearbyMembers(accidents: seq<Accident>, lat: real, lon: real, threshold: real, dist: DistanceFn)
    ensures var r := GetNearbyAccidents(accidents, lat, lon, threshold, dist);
      && (forall x :: x in r ==>
            x.accident in accidents
            && x.distanceMeters == dist(lat, lon, x.accident.latitude, x.accident.longitude))
      && (forall i :: 0 <= i < |accidents|
            && Measure(accidents[i], lat, lon, dist).distanceMeters <= threshold
            ==> Measure(accidents[i], lat, lon, dist) in r)
  {
    var all := WithDistances(accidents, lat, lon, dist);
    var r := GetNearbyAccidents(accidents, lat, lon, threshold, dist);
    forall x | x in r ensures x in all {
      assert multiset(r)[x] > 0;
    }
    forall i | 0 <= i < |accidents| && all[i].distanceMeters <= threshold
      ensures all[i] in r
    {
      assert all[i] in multiset(all);
    }
  }

  /** Stability: at every distance within the threshold the result holds the
      accidents at that distance in their input order; at any other distance
      it holds none. */
  lemma NearbyTies(accidents: seq<Accident>, lat: real, lon: real, threshold: real, dist: DistanceFn, k: real)
    ensures WithKey(GetNearbyAccidents(accidents, lat, lon, threshold, dist), DistanceOf, k)
      == if k <= threshold then WithKey(WithDistances(accidents, lat, lon, dist), DistanceOf, k) else []
  {
    var kept := Within(WithDistances(accidents, lat, lon, dist), threshold);
    WithinTies(WithDistances(accidents, lat, lon, dist), threshold, k);
    assert WithKey(SortBy(kept, DistanceOf), DistanceOf, k) == WithKey(kept, DistanceOf, k);
  }

  /** The filter depends on the accidents only through their distances and
      order: any ascending arrangement that keeps exactly the qualifying
      entries, ties in input order, is the result. */
  lemma NearbyIsDetermined(accidents: seq<Accident>, lat: real, lon: real, threshold: real,
                           dist: DistanceFn, t: seq<AccidentWithDistance>)
    requires forall i, j :: 0 <= i < j < |t| ==> t[i].distanceMeters <= t[j].distanceMeters
    requires forall k :: WithKey(t, DistanceOf, k) ==
                           if k <= threshold
                           then WithKey(WithDistances(accidents, lat, lon, dist), DistanceOf, k)
                           else []
    ensures t == GetNearbyAccidents(accidents, lat, lon, threshold, dist)
  {
    var r := GetNearbyAccidents(accidents, lat, lon, threshold, dist);
    forall k ensures WithKey(r, DistanceOf, k) == WithKey(t, DistanceOf, k) {
      NearbyTies(accidents, lat, lon, threshold, dist, k);
    }
    SortedStableUnique(r, t, DistanceOf);
  }
}
