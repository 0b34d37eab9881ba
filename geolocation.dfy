/** The position tracker (`useGeolocation`): one request at mount and on every
    retry, plus an optional continuous watch. Each asynchronous completion is
    modelled as one atomic method call; the completion time is a parameter. */
module Geolocation {
  import opened Wrappers
  import opened Accidents

  const PermissionDeniedMessage := "位置情報の利用が許可されていません"
  const UnavailableMessage := "位置情報を取得できませんでした"
  const TimeoutMessage := "位置情報の取得がタイムアウトしました"

  /** The message shown for a failed request, chosen by the error's `code`
      (absent when the rejection is not a `GeolocationPositionError`, as when
      the browser has no geolocation at all). */
  function ErrorMessage(code: Option<int>): (m: string)
    ensures m == PermissionDeniedMessage <==> code == Some(1)
    ensures m == UnavailableMessage <==> code == Some(2)
    ensures m == TimeoutMessage <==> code != Some(1) && code != Some(2)
  {
    if code == Some(1) then PermissionDeniedMessage
    else if code == Some(2) then UnavailableMessage
    else TimeoutMessage
  }

  /** The `watch` option, which defaults to on. */
  function WatchOption(watch: Option<bool>): (w: bool)
    ensures w <==> watch != Some(false)
  {
    match watch
    case None => true
    case Some(b) => b
  }

  class GeolocationTracker {
    /** whether the continuous watch is wanted */
    const watch: bool
    var position: Option<GeoPosition>
    var error: Option<string>
    var loading: bool
    /** epoch milliseconds of the last position update */
    var lastUpdatedAt: Option<int>
    /** `lastRequestRef`: completion time of the last successful request */
    var lastRequest: int
    /** whether the watch callback is registered with the location source */
    var subscribed: bool

    /** A position and its update time are always set together, an error is
        always one of the three messages, and only a wanted watch is ever
        registered. */
    ghost predicate Valid()
      reads this
    {
      && (position.Some? <==> lastUpdatedAt.Some?)
      && (error.Some? ==> error.value in {PermissionDeniedMessage, UnavailableMessage, TimeoutMessage})
      && (subscribed ==> watch)
    }

    /** The hook's initial state, before its effects run. */
    constructor (watch: bool)
      ensures Valid()
      ensures this.watch == watch
      ensures position == None && error == None && loading && lastUpdatedAt == None
      ensures lastRequest == 0 && !subscribed
    {
      this.watch := watch;
      position := None;
      error := None;
      loading := true;
      lastUpdatedAt := None;
      lastRequest := 0;
      subscribed := false;
    }

    /** `requestPosition`, up to the point where it awaits the location
        source: loading on, error cleared, the last fix kept. */
    method RequestPosition()
      requires Valid()
      modifies this
      ensures Valid()
      ensures loading && error == None
      ensures position == old(position) && lastUpdatedAt == old(lastUpdatedAt)
      ensures lastRequest == old(lastRequest) && subscribed == old(subscribed)
    {
      loading := true;
      error := None;
    }

    /** The request resolved with `p` at time `t`, then `finally` ran. */
    method RequestSucceeded(p: GeoPosition, t: int)
      requires Valid()
      modifies this
      ensures Valid()
      ensures position == Some(p) && lastUpdatedAt == Some(t) && lastRequest == t
      ensures !loading
      ensures error == old(error) && subscribed == old(subscribed)
    {
      position := Some(p);
      lastUpdatedAt := Some(t);
      lastRequest := t;
      loading := false;
    }

    /** The request was rejected with error code `code`, then `finally` ran.
        A previous fix survives: the screen keeps working on it. */
    method RequestFailed(code: Option<int>)
      requires Valid()
      modifies this
      ensures Valid()
      ensures error == Some(ErrorMessage(code))
      ensures !loading
      ensures position == old(position) && lastUpdatedAt == old(lastUpdatedAt)
      ensures lastRequest == old(lastRequest) && subscribed == old(subscribed)
    {
      error := Some(ErrorMessage(code));
      loading := false;
    }

    /** The watch effect: registers the callback only when `watch` is on. */
    method StartWatch()
      requires Valid()
      modifies this
      ensures Valid()
      ensures subscribed == watch
      ensures position == old(position) && error == old(error) && loading == old(loading)
      ensures lastUpdatedAt == old(lastUpdatedAt) && lastRequest == old(lastRequest)
    {
      if watch {
        subscribed := true;
      }
    }

    /** Mount: the request effect, then the watch effect. */
    method Mount()
      requires Valid()
      modifies this
      ensures Valid()
      ensures loading && error == None && subscribed == watch
      ensures position == old(position) && lastUpdatedAt == old(lastUpdatedAt)
      ensures lastRequest == old(lastRequest)
    {
      RequestPosition();
      StartWatch();
    }

    /** The watch delivered `p` at time `now`. Only a registered callback is
        ever called. Errors and loading are left alone. */
    method WatchUpdate(p: GeoPosition, now: int)
      requires Valid()
      requires subscribed
      modifies this
      ensures Valid()
      ensures position == Some(p) && lastUpdatedAt == Some(now)
      ensures error == old(error) && loading == old(loading)
      ensures lastRequest == old(lastRequest) && subscribed
    {
      position := Some(p);
      lastUpdatedAt := Some(now);
    }

    /** Unmount or a change of `watch`: the cleanup unregisters the callback,
        so it can no longer change the state. */
    method StopWatch()
      requires Valid()
      modifies this
      ensures Valid()
      ensures !subscribed
      ensures position == old(position) && error == old(error) && loading == old(loading)
      ensures lastUpdatedAt == old(lastUpdatedAt) && lastRequest == old(lastRequest)
    {
      subscribed := false;
    }
  }
}
