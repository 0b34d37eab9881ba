/** The application-wide settings shared by every screen: whether voice
    alerts are on, and the alert radius. */
module SettingsContext {
  import opened Wrappers

  /** The radii, in meters, the settings screen offers. */
  const ThresholdOptions: seq<real> := [50.0, 100.0, 200.0]

  /** The message thrown by `useSettings` outside a provider. */
  const OutsideProviderMessage := "useSettings must be used within SettingsProvider"

  /** The state of `SettingsProvider`: its two state cells. */
  class Settings {
    var voiceEnabled: bool
    var thresholdMeters: real

    /** The radius is always one of the offered options. */
    ghost predicate Valid()
      reads this
    {
      thresholdMeters in ThresholdOptions
    }

    /** Voice on, 100 m radius. */
    constructor ()
      ensures Valid()
      ensures voiceEnabled && thresholdMeters == 100.0
    {
      voiceEnabled := true;
      thresholdMeters := 100.0;
    }

    /** `setVoiceEnabled`: the raw state setter. */
    method SetVoiceEnabled(v: bool)
      requires Valid()
      modifies this
      ensures Valid()
      ensures voiceEnabled == v
      ensures thresholdMeters == old(thresholdMeters)
    {
      voiceEnabled := v;
    }

    /** `setThresholdMeters` as the provider exposes it: the guarded setter,
        which takes an offered radius and silently ignores anything else. */
    method SetThresholdMeters(m: real)
      requires Valid()
      modifies this
      ensures Valid()
      ensures m in ThresholdOptions ==> thresholdMeters == m
      ensures m !in ThresholdOptions ==> thresholdMeters == old(thresholdMeters)
      ensures voiceEnabled == old(voiceEnabled)
    {
      if m in ThresholdOptions {
        thresholdMeters := m;
      }
    }
  }

  /** `useSettings`: the provider's settings, or the error thrown when no
      provider encloses the caller. */
  function UseSettings(context: Option<Settings>): (r: Result<Settings, string>)
    ensures r.Failure? <==> context.None?
    ensures context.Some? ==> r == Success(context.value)
    ensures r.Failure? ==> r.error == OutsideProviderMessage
  {
    match context
    case None => Failure(OutsideProviderMessage)
    case Some(s) => Success(s)
  }
}
