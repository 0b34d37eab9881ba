/** The accident list: every recorded accident, nearest first when a
    position is known, in recorded order with no distance otherwise. */
module ListScreen {
  import opened Wrappers
  import opened Text
  import opened Accidents
  import opened StableSort
  import opened Nearby

  /** A distance in meters, or JavaScript's `Infinity` for "unknown". */
  datatype Distance = Meters(m: real) | Infinity

  /** One row of the list. */
  datatype ListEntry = ListEntry(accident: Accident, distance: Distance)

  function EntryAccidents(s: seq<ListEntry>): (r: seq<Accident>)
    ensures |r| == |s|
    ensures forall i :: 0 <= i < |s| ==> r[i] == s[i].accident
  {
    seq(|s|, i requires 0 <= i < |s| => s[i].accident)
  }

  /** The rows shown for a ranked sequence: each accident with its distance. */
  function RankedRows(s: seq<AccidentWithDistance>): (r: seq<ListEntry>)
    ensures |r| == |s|
    ensures forall i :: 0 <= i < |s| ==> r[i] == ListEntry(s[i].accident, Meters(s[i].distanceMeters))
  {
    seq(|s|, i requires 0 <= i < |s| => ListEntry(s[i].accident, Meters(s[i].distanceMeters)))
  }

  /** The accidents of a ranked sequence, in its order. */
  function RankedAccidents(s: seq<AccidentWithDistance>): (r: seq<Accident>)
    ensures |r| == |s|
    ensures forall i :: 0 <= i < |s| ==> r[i] == s[i].accident
  {
    EntryAccidents(RankedRows(s))
  }

  lemma RankedAccidentsConcat(a: seq<AccidentWithDistance>, b: seq<AccidentWithDistance>)
    ensures RankedAccidents(a + b) == RankedAccidents(a) + RankedAccidents(b)
  {
  }

  /** Taking the same element out of two permutations of each other leaves
      permutations of each other. */
  lemma RemoveMatching<T>(s: seq<T>, t: seq<T>, k: nat)
    requires s != [] && k < |t| && t[k] == s[0]
    requires multiset(s) == multiset(t)
    ensures multiset(s[1..]) == multiset(t[..k] + t[k + 1..])
  {
    assert s == [s[0]] + s[1..];
    assert t == t[..k] + [t[k]] + t[k + 1..];
    var u := t[..k] + t[k + 1..];
    assert multiset(t) == multiset(u) + multiset{s[0]};
    assert multiset(s) == multiset(s[1..]) + multiset{s[0]};
    forall x ensures multiset(s[1..])[x] == multiset(u)[x] {
      assert multiset(s)[x] == multiset(t)[x];
    }
  }

  /** Taking the `k`-th entry out of `t` takes its accident out of the
      accidents of `t`. */
  lemma RankedAccidentsSplit(t: seq<AccidentWithDistance>, k: nat)
    requires k < |t|
    ensures multiset(RankedAccidents(t))
      == multiset{t[k].accident} + multiset(RankedAccidents(t[..k] + t[k + 1..]))
  {
    assert t == t[..k] + ([t[k]] + t[k + 1..]);
    RankedAccidentsConcat(t[..k], [t[k]] + t[k + 1..]);
    RankedAccidentsConcat([t[k]], t[k + 1..]);
    RankedAccidentsConcat(t[..k], t[k + 1..]);
    assert RankedAccidents([t[k]]) == [t[k].accident];
    var a, b := RankedAccidents(t[..k]), RankedAccidents(t[k + 1..]);
    assert RankedAccidents(t) == a + ([t[k].accident] + b);
    assert RankedAccidents(t[..k] + t[k + 1..]) == a + b;
  }

  lemma RankedAccidentsHead(s: seq<AccidentWithDistance>)
    requires s != []
    ensures multiset(RankedAccidents(s)) == multiset{s[0].accident} + multiset(RankedAccidents(s[1..]))
  {
    assert s == [s[0]] + s[1..];
    RankedAccidentsConcat([s[0]], s[1..]);
    assert RankedAccidents([s[0]]) == [s[0].accident];
  }

  /** Dropping the distances of a permuted sequence permutes the accidents. */
  lemma {:induction false} RankedAccidentsPermute(s: seq<AccidentWithDistance>, t: seq<AccidentWithDistance>)
    requires multiset(s) == multiset(t)
    ensures multiset(RankedAccidents(s)) == multiset(RankedAccidents(t))
    decreases |s|
  {
    if s != [] {
      var k := IndexOf(s[0], t);
      RemoveMatching(s, t, k);
      RankedAccidentsPermute(s[1..], t[..k] + t[k + 1..]);
      PermuteStep(s, t, k);
    }
  }

  lemma PermuteStep(s: seq<AccidentWithDistance>, t: seq<AccidentWithDistance>, k: nat)
    requires s != [] && k < |t| && t[k] == s[0]
    requires multiset(RankedAccidents(s[1..])) == multiset(RankedAccidents(t[..k] + t[k + 1..]))
    ensures multiset(RankedAccidents(s)) == multiset(RankedAccidents(t))
  {
    var m := multiset{s[0].accident};
    calc {
      multiset(RankedAccidents(s));
      { RankedAccidentsHead(s); }
      m + multiset(RankedAccidents(s[1..]));
      m + multiset(RankedAccidents(t[..k] + t[k + 1..]));
      { RankedAccidentsSplit(t, k); }
      multiset(RankedAccidents(t));
    }
  }

  /** A position of `x` in `t`. */
  lemma IndexOf<T>(x: T, t: seq<T>) returns (k: nat)
    requires x in multiset(t)
    ensures k < |t| && t[k] == x
  {
    k :| 0 <= k < |t| && t[k] == x;
  }

  /** The `map`-then-`sort` branch: a copy of the accidents annotated with
      their distances and stable-sorted ascending. */
  function Ranked(accidents: seq<Accident>, lat: real, lon: real, dist: DistanceFn)
    : (r: seq<AccidentWithDistance>)
    ensures |r| == |accidents|
    ensures SortedBy(r, DistanceOf)
    ensures forall i :: 0 <= i < |r| ==> r[i] == Measure(r[i].accident, lat, lon, dist)
    ensures multiset(RankedAccidents(r)) == multiset(accidents)
    ensures SameTies(WithDistances(accidents, lat, lon, dist), r, DistanceOf)
  {
    var all := WithDistances(accidents, lat, lon, dist);
    var r := SortBy(all, DistanceOf);
    forall i | 0 <= i < |r| ensures r[i] == Measure(r[i].accident, lat, lon, dist) {
      assert r[i] in multiset(all);
    }
    RankedAccidentsPermute(r, all);
    assert RankedAccidents(all) == accidents;
    r
  }

  /** `sorted`: with a position, every accident once, nearest first, each with
      its distance from the position; without one, the accidents in recorded
      order with no distance. Either way the accidents are the recorded ones. */
  function SortedList(position: Option<GeoPosition>, accidents: seq<Accident>, dist: DistanceFn)
    : (r: seq<ListEntry>)
    ensures |r| == |accidents|
    ensures multiset(EntryAccidents(r)) == multiset(accidents)
    ensures position.None? ==> forall i :: 0 <= i < |r| ==> r[i] == ListEntry(accidents[i], Infinity)
    ensures position.Some? ==> forall i :: 0 <= i < |r| ==>
      r[i].distance == Meters(dist(position.value.latitude, position.value.longitude,
                                   r[i].accident.latitude, r[i].accident.longitude))
    ensures position.Some? ==> forall i, j :: 0 <= i < j < |r| ==> r[i].distance.m <= r[j].distance.m
    ensures position.Some? ==>
      EntryAccidents(r) == RankedAccidents(Ranked(accidents, position.value.latitude, position.value.longitude, dist))
  {
    match position
    case None =>
      var r := seq(|accidents|, i requires 0 <= i < |accidents| => ListEntry(accidents[i], Infinity));
      assert EntryAccidents(r) == accidents;
      r
    case Some(p) =>
      var ranked := Ranked(accidents, p.latitude, p.longitude, dist);
      var r := RankedRows(ranked);
      assert EntryAccidents(r) == RankedAccidents(ranked);
      r
  }

  /** The distance column: "約{m}m" for a known distance under 100 km,
      "—" otherwise. */
  function DistanceLabel(d: Distance): (r: string)
    ensures r == "—" <==> !(d.Meters? && d.m < 100000.0)
    ensures r != "—" ==> StartsWith(r, "約") && EndsWith(r, "m")
  {
    if d.Meters? && d.m < 100000.0 then "約" + IntToString(Round(d.m)) + "m" else "—"
  }

  /** The number between "約" and "m" is the distance rounded to whole
      metres; for a non-negative distance its digits read back as that
      rounded value. */
  lemma DistanceLabelReadsBack(d: Distance)
    requires d.Meters? && d.m < 100000.0
    ensures var r, n := DistanceLabel(d), Round(d.m);
      && |r| >= 2 && r[1..|r| - 1] == IntToString(n)
      && n as real - 0.5 <= d.m < n as real + 0.5
      && (d.m >= 0.0 ==> n >= 0 && DecimalValue(r[1..|r| - 1]) == n)
  {
    var n := Round(d.m);
    var digits := IntToString(n);
    assert ("約" + digits + "m")[1..|digits| + 1] == digits;
    if d.m >= 0.0 {
      DecimalRoundTrip(n);
    }
  }

  /** Without a position every row shows "—". */
  lemma NoPositionNoDistances(accidents: seq<Accident>, dist: DistanceFn)
    ensures forall e :: e in SortedList(None, accidents, dist) ==> DistanceLabel(e.distance) == "—"
  {
  }

  /** `Math.round` keeps order. */
  lemma RoundMonotone(x: real, y: real)
    requires x <= y
    ensures Round(x) <= Round(y)
  {
  }

  /** With a position the rounded distances shown never decrease down the
      list. */
  lemma {:induction false} ShownDistancesAscend(p: GeoPosition, accidents: seq<Accident>, dist: DistanceFn)
    ensures var r := SortedList(Some(p), accidents, dist);
      forall i, j :: 0 <= i < j < |r| ==> Round(r[i].distance.m) <= Round(r[j].distance.m)
  {
    var r := SortedList(Some(p), accidents, dist);
    forall i, j | 0 <= i < j < |r| ensures Round(r[i].distance.m) <= Round(r[j].distance.m) {
      RoundMonotone(r[i].distance.m, r[j].distance.m);
    }
  }

  /** The "no accidents registered" notice shows exactly when there are none. */
  function ShowsEmptyNotice(accidents: seq<Accident>): (b: bool)
    ensures b <==> accidents == []
  {
    |accidents| == 0
  }

  /** The notice shows exactly when the list has no rows, with or without a
      position. */
  lemma EmptyNoticeMatchesList(position: Option<GeoPosition>, accidents: seq<Accident>, dist: DistanceFn)
    ensures ShowsEmptyNotice(accidents) <==> SortedList(position, accidents, dist) == []
  {
  }
}
