/** The main screen's alert logic: how stale the last fix is, the status
    line, and what a tap on the play button sets off. */
module MainScreen {
  import opened Wrappers
  import opened Text
  import opened Accidents
  import opened Nearby
  import opened VoiceMessage
  import opened SettingsContext

  /** A fix older than this many seconds is flagged as stale. */
  const StaleSec := 30

  /** The staleness warning shows when a fix time is known and more than
      30 000 ms have passed since it (strictly more). */
  function IsStale(lastUpdatedAt: Option<int>, now: int): (r: bool)
    ensures r ==> lastUpdatedAt.Some?
    ensures lastUpdatedAt.Some? ==> (r <==> now - lastUpdatedAt.value >= 30001)
  {
    lastUpdatedAt.Some? && now - lastUpdatedAt.value > StaleSec * 1000
  }

  /** Exactly 30 seconds is still fresh; one millisecond more is stale. */
  lemma {:induction false} StaleBoundary(t: int)
    ensures !IsStale(Some(t), t + 30000)
    ensures IsStale(Some(t), t + 30001)
  {
  }

  /** Once stale, a fix stays stale as the clock moves on. */
  lemma StaleStaysStale(lastUpdatedAt: Option<int>, now: int, later: int)
    requires IsStale(lastUpdatedAt, now) && now <= later
    ensures IsStale(lastUpdatedAt, later)
  {
  }

  /** The whole seconds since the fix, `max(0, floor((now - t) / 1000))`:
      never negative, and 0 when the clock reads earlier than the fix. */
  function ElapsedSeconds(t: int, now: int): (s: nat)
    ensures now >= t ==> s * 1000 <= now - t < s * 1000 + 1000
    ensures now < t ==> s == 0
  {
    // `/` on int rounds toward negative infinity for a positive divisor,
    // as `Math.floor` of the quotient does
    var q := (now - t) / 1000;
    if q < 0 then 0 else q
  }

  /** The "last updated" label: "—" without a fix time, otherwise the elapsed
      seconds followed by "秒前" ("seconds ago"). */
  function ElapsedLabel(lastUpdatedAt: Option<int>, now: int): (r: string)
    ensures lastUpdatedAt.None? <==> r == "—"
  {
    match lastUpdatedAt
    case None => "—"
    case Some(t) => NatToString(ElapsedSeconds(t, now)) + "秒前"
  }

  /** The seconds shown read back as the elapsed time, rounded down. */
  lemma {:induction false} ElapsedLabelReadsBack(t: int, now: int)
    ensures var r, digits := ElapsedLabel(Some(t), now), NatToString(ElapsedSeconds(t, now));
      && |r| == |digits| + 2 && r[..|digits|] == digits && r[|digits|..] == "秒前"
      && var s := DecimalValue(r[..|digits|]);
         now >= t ==> s * 1000 <= now - t < s * 1000 + 1000
  {
    var digits := NatToString(ElapsedSeconds(t, now));
    assert (digits + "秒前")[..|digits|] == digits;
    assert (digits + "秒前")[|digits|..] == "秒前";
    DecimalRoundTrip(ElapsedSeconds(t, now));
  }

  const NoHazardText := "今、近くに事故履歴はありません。"

  /** "About {d} m ahead there is 1 accident record." */
  function SingleHazardText(d: int): string {
    "約" + IntToString(d) + "m先に事故履歴が1件あります。"
  }

  /** "{n} accident records nearby." before the count, and after it "The
      nearest is about {d} m ahead." */
  const ManyHead := "付近に事故履歴が"

  function ManyTail(d: int): string {
    "件あります。最も近いものは約" + IntToString(d) + "m先です。"
  }

  function ManyHazardsText(n: nat, d: int): string {
    ManyHead + NatToString(n) + ManyTail(d)
  }

  /** The status card's text. `nearby[0]` is the nearest entry. */
  function StatusText(nearby: seq<AccidentWithDistance>): (r: string)
    ensures |nearby| == 0 <==> r == NoHazardText
    ensures |nearby| == 1 ==> r == SingleHazardText(Round(nearby[0].distanceMeters))
    ensures |nearby| >= 2 ==> r == ManyHazardsText(|nearby|, Round(nearby[0].distanceMeters))
  {
    if |nearby| == 0 then NoHazardText
    else
      var d := Round(nearby[0].distanceMeters);
      if |nearby| == 1 then
        assert SingleHazardText(d)[0] != NoHazardText[0];
        SingleHazardText(d)
      else
        assert ManyHazardsText(|nearby|, d)[0] != NoHazardText[0];
        ManyHazardsText(|nearby|, d)
  }

  /** In the text for two or more, the digits after "付近に事故履歴が" read back
      as the number of entries. */
  lemma ManyHazardsCount(n: nat, d: int)
    ensures var digits := NatToString(n);
      && |ManyHazardsText(n, d)| >= |ManyHead| + |digits|
      && DecimalValue(ManyHazardsText(n, d)[|ManyHead|..|ManyHead| + |digits|]) == n
  {
    DigitsReadBack(ManyHead, n, ManyTail(d));
  }

  /** The distance the status text names is the least distance among all
      accidents inside the radius, and it is inside the radius itself. */
  lemma StatusNamesNearest(accidents: seq<Accident>, lat: real, lon: real, threshold: real, dist: DistanceFn)
    requires GetNearbyAccidents(accidents, lat, lon, threshold, dist) != []
    ensures var nearest := GetNearbyAccidents(accidents, lat, lon, threshold, dist)[0];
      && nearest.distanceMeters <= threshold
      && forall a :: a in accidents && dist(lat, lon, a.latitude, a.longitude) <= threshold
           ==> nearest.distanceMeters <= dist(lat, lon, a.latitude, a.longitude)
  {
    var r := GetNearbyAccidents(accidents, lat, lon, threshold, dist);
    forall a | a in accidents && dist(lat, lon, a.latitude, a.longitude) <= threshold
      ensures r[0].distanceMeters <= dist(lat, lon, a.latitude, a.longitude)
    {
      var i :| 0 <= i < |accidents| && accidents[i] == a;
      assert Measure(a, lat, lon, dist) in r by {
        NearbyMembers(accidents, lat, lon, threshold, dist);
      }
      var j :| 0 <= j < |r| && r[j] == Measure(a, lat, lon, dist);
      assert r[0].distanceMeters <= r[j].distanceMeters;
    }
  }

  /** The side effects a tap can start. */
  datatype Effect = Speak(text: string) | PlayAlertSound

  /** `handlePlayVoice`: nothing for an empty list; otherwise speak the alert
      for the whole list first (in the same user gesture), then the sound. */
  method HandlePlayVoice(nearby: seq<AccidentWithDistance>) returns (effects: seq<Effect>)
    ensures nearby == [] <==> effects == []
    ensures nearby != [] ==> effects == [Speak(BuildVoiceMessageForMultiple(nearby)), PlayAlertSound]
    ensures forall e :: e in effects ==> e.Speak? ==> e.text != ""
  {
    if |nearby| == 0 {
      return [];
    }
    var message := BuildVoiceMessageForMultiple(nearby);
    effects := [Speak(message), PlayAlertSound];
  }

  /** The play button: not rendered, rendered but disabled, or usable. */
  datatype PlayButton = Absent | Disabled | Enabled

  /** The button is rendered only in the position section (a fix and no
      error) and only for a non-empty list; voice off disables it. */
  function PlayButtonState(hasPosition: bool, hasError: bool, nearby: seq<AccidentWithDistance>,
                           voiceEnabled: bool): (b: PlayButton)
    ensures b != Absent <==> hasPosition && !hasError && nearby != []
    ensures b == Enabled <==> hasPosition && !hasError && nearby != [] && voiceEnabled
  {
    if !(hasPosition && !hasError) || |nearby| == 0 then Absent
    else if voiceEnabled then Enabled
    else Disabled
  }

  /** A tap on the play button: only a usable button runs the handler. */
  method TapPlayButton(hasPosition: bool, hasError: bool, nearby: seq<AccidentWithDistance>,
                       voiceEnabled: bool) returns (effects: seq<Effect>)
    ensures effects != [] <==> hasPosition && !hasError && nearby != [] && voiceEnabled
    ensures effects != [] ==> effects == [Speak(BuildVoiceMessageForMultiple(nearby)), PlayAlertSound]
  {
    effects := [];
    if PlayButtonState(hasPosition, hasError, nearby, voiceEnabled) == Enabled {
      effects := HandlePlayVoice(nearby);
    }
  }

  /** The ON/OFF toggle flips voice alerts and leaves the radius alone. */
  method ToggleVoice(settings: Settings)
    requires settings.Valid()
    modifies settings
    ensures settings.Valid()
    ensures settings.voiceEnabled == !old(settings.voiceEnabled)
    ensures settings.thresholdMeters == old(settings.thresholdMeters)
  {
    settings.SetVoiceEnabled(!settings.voiceEnabled);
  }

  /** The screen's clock, advanced by the one-second interval. */
  class Clock {
    var now: int

    constructor (start: int)
      ensures now == start
    {
      now := start;
    }

    /** One interval tick: `now` becomes the reading of the system clock. */
    method Tick(reading: int)
      modifies this
      ensures now == reading
    {
      now := reading;
    }
  }
}
