/** The registration form: a date, a spoken description and a map pin, checked
    in a fixed order before the record is handed to the store. Saving and id
    generation are outside this model: their outcomes are parameters. */
module AddScreen {
  import opened Wrappers

  /** A tapped map coordinate. */
  datatype LatLng = LatLng(lat: real, lng: real)

  /** The record handed to `saveAccident` (it has no category). */
  datatype NewAccident = NewAccident(
    id: string,
    occurredAt: string,
    description: string,
    latitude: real,
    longitude: real)

  /** How the awaited save ended: it resolved, or it threw, with the thrown
      `Error`'s message when what was thrown is an `Error`. */
  datatype SaveOutcome = Saved | Threw(message: Option<string>)

  const MissingDateMessage := "発生日を入力してください"
  const MissingDescriptionMessage := "説明を入力してください"
  const MissingPositionMessage := "地図をタップして位置を指定してください"
  const SaveFailedMessage := "保存に失敗しました"
  const GpsFailedMessage := "位置情報を取得できませんでした"

  /** The submit checks, in order date, description, position: the message of
      the first one that fails, or nothing when all pass. Emptiness is judged
      on the raw strings, so a description of spaces passes. */
  function Validate(occurredAt: string, description: string, position: Option<LatLng>)
    : (r: Option<string>)
    ensures r.None? <==> occurredAt != "" && description != "" && position.Some?
    ensures occurredAt == "" ==> r == Some(MissingDateMessage)
    ensures occurredAt != "" && description == "" ==> r == Some(MissingDescriptionMessage)
    ensures occurredAt != "" && description != "" && position.None? ==> r == Some(MissingPositionMessage)
  {
    if occurredAt == "" then Some(MissingDateMessage)
    else if description == "" then Some(MissingDescriptionMessage)
    else if position.None? then Some(MissingPositionMessage)
    else None
  }

  /** Only the first failing check is reported: with every field missing the
      date is named, and a blank description gets past its check. */
  lemma ValidateReportsFirstOnly()
    ensures Validate("", "", None) == Some(MissingDateMessage)
    ensures Validate("2024-01", " ", Some(LatLng(37.0, 138.0))) == None
  {
  }

  /** The thrown message when there is one, the fixed fallback otherwise. */
  function SaveErrorMessage(message: Option<string>): (r: string)
    ensures message.Some? ==> r == message.value
    ensures message.None? ==> r == SaveFailedMessage
  {
    match message
    case Some(m) => m
    case None => SaveFailedMessage
  }

  class AddForm {
    var nextId: string
    var occurredAt: string
    var description: string
    var position: Option<LatLng>
    var gpsLoading: bool
    var saving: bool
    /** "" when there is no error to show */
    var error: string
    /** whether the map has been created (`mapRef.current`) */
    var mapReady: bool
    /** where the single marker stands, if one was ever placed */
    var marker: Option<LatLng>
    /** how many markers were added to the map */
    var markersCreated: nat

    /** At most one marker is ever created, it exists once a position was
        picked, and it stands on the picked position. */
    ghost predicate Valid()
      reads this
    {
      && marker == position
      && markersCreated == (if marker.Some? then 1 else 0)
    }

    constructor ()
      ensures Valid()
      ensures nextId == "" && occurredAt == "" && description == "" && position == None
      ensures !gpsLoading && !saving && error == "" && !mapReady
    {
      nextId := "";
      occurredAt := "";
      description := "";
      position := None;
      gpsLoading := false;
      saving := false;
      error := "";
      mapReady := false;
      marker := None;
      markersCreated := 0;
    }

    /** `generateNextId` resolved with `id`. */
    method SetNextId(id: string)
      modifies this
      ensures nextId == id
      ensures occurredAt == old(occurredAt) && description == old(description)
      ensures position == old(position) && marker == old(marker) && markersCreated == old(markersCreated)
      ensures gpsLoading == old(gpsLoading) && saving == old(saving) && error == old(error)
      ensures mapReady == old(mapReady)
    {
      nextId := id;
    }

    /** The date input changed. */
    method SetOccurredAt(value: string)
      modifies this
      ensures occurredAt == value
      ensures nextId == old(nextId) && description == old(description)
      ensures position == old(position) && marker == old(marker) && markersCreated == old(markersCreated)
      ensures gpsLoading == old(gpsLoading) && saving == old(saving) && error == old(error)
      ensures mapReady == old(mapReady)
    {
      occurredAt := value;
    }

    /** The description textarea changed. */
    method SetDescription(value: string)
      modifies this
      ensures description == value
      ensures nextId == old(nextId) && occurredAt == old(occurredAt)
      ensures position == old(position) && marker == old(marker) && markersCreated == old(markersCreated)
      ensures gpsLoading == old(gpsLoading) && saving == old(saving) && error == old(error)
      ensures mapReady == old(mapReady)
    {
      description := value;
    }

    /** The map-initialisation effect created the map. */
    method MountMap()
      modifies this
      ensures mapReady
      ensures nextId == old(nextId) && occurredAt == old(occurredAt) && description == old(description)
      ensures position == old(position) && marker == old(marker) && markersCreated == old(markersCreated)
      ensures gpsLoading == old(gpsLoading) && saving == old(saving) && error == old(error)
    {
      mapReady := true;
    }

    /** `placeMarker`: move the existing marker, or create the first one;
        either way the picked position becomes the coordinate. */
    method PlaceMarker(lat: real, lng: real)
      requires Valid()
      modifies this
      ensures Valid()
      ensures position == Some(LatLng(lat, lng)) && marker == position
      ensures markersCreated == 1
      ensures old(marker).Some? ==> markersCreated == old(markersCreated)
      ensures nextId == old(nextId) && occurredAt == old(occurredAt) && description == old(description)
      ensures gpsLoading == old(gpsLoading) && saving == old(saving) && error == old(error)
      ensures mapReady == old(mapReady)
    {
      if marker.Some? {
        marker := Some(LatLng(lat, lng));
      } else {
        marker := Some(LatLng(lat, lng));
        markersCreated := markersCreated + 1;
      }
      position := Some(LatLng(lat, lng));
    }

    /** `handleGps`, up to the point where it awaits the location source. */
    method StartGps()
      modifies this
      ensures gpsLoading
      ensures nextId == old(nextId) && occurredAt == old(occurredAt) && description == old(description)
      ensures position == old(position) && marker == old(marker) && markersCreated == old(markersCreated)
      ensures saving == old(saving) && error == old(error) && mapReady == old(mapReady)
    {
      gpsLoading := true;
    }

    /** The location source answered (`lat`, `lng`): the pin goes there when
        the map exists. */
    method GpsSucceeded(lat: real, lng: real)
      requires Valid()
      modifies this
      ensures Valid()
      ensures !gpsLoading
      ensures mapReady ==> position == Some(LatLng(lat, lng))
      ensures !mapReady ==> position == old(position) && markersCreated == old(markersCreated)
      ensures nextId == old(nextId) && occurredAt == old(occurredAt) && description == old(description)
      ensures saving == old(saving) && error == old(error) && mapReady == old(mapReady)
    {
      if mapReady {
        PlaceMarker(lat, lng);
      }
      gpsLoading := false;
    }

    /** The location source failed. */
    method GpsFailed()
      modifies this
      ensures error == GpsFailedMessage && !gpsLoading
      ensures nextId == old(nextId) && occurredAt == old(occurredAt) && description == old(description)
      ensures position == old(position) && marker == old(marker) && markersCreated == old(markersCreated)
      ensures saving == old(saving) && mapReady == old(mapReady)
    {
      error := GpsFailedMessage;
      gpsLoading := false;
    }

    /** `handleSubmit`: clear the error, run the checks in order and stop at
        the first failure; otherwise mark saving, hand the record with the
        generated id to the store, and on success go to the list, on failure
        show the thrown message (or the fallback) and end saving. `outcome`
        is how the awaited save ends; it is consulted only when the checks
        pass. */
    method HandleSubmit(outcome: SaveOutcome) returns (request: Option<NewAccident>, navigateTo: Option<string>)
      requires Valid()
      modifies this
      ensures Valid()
      ensures request.None? <==> Validate(occurredAt, description, position).Some?
      ensures request.Some? ==> request.value == NewAccident(nextId, occurredAt, description,
                                                             position.value.lat, position.value.lng)
      ensures navigateTo.Some? <==> request.Some? && outcome.Saved?
      ensures navigateTo.Some? ==> navigateTo.value == "/list"
      ensures request.None? ==> error == Validate(occurredAt, description, position).value
      ensures request.None? ==> saving == old(saving)
      ensures request.Some? && outcome.Saved? ==> error == "" && saving
      ensures request.Some? && outcome.Threw? ==> error == SaveErrorMessage(outcome.message) && !saving
      ensures nextId == old(nextId) && occurredAt == old(occurredAt) && description == old(description)
      ensures position == old(position) && marker == old(marker) && markersCreated == old(markersCreated)
      ensures gpsLoading == old(gpsLoading) && mapReady == old(mapReady)
    {
      error := "";
      request, navigateTo := None, None;
      if occurredAt == "" {
        error := MissingDateMessage;
        return;
      }
      if description == "" {
        error := MissingDescriptionMessage;
        return;
      }
      if position.None? {
        error := MissingPositionMessage;
        return;
      }
      saving := true;
      request := Some(NewAccident(nextId, occurredAt, description, position.value.lat, position.value.lng));
      match outcome {
        case Saved =>
          navigateTo := Some("/list");
        case Threw(message) =>
          error := SaveErrorMessage(message);
          saving := false;
      }
    }
  }
}
