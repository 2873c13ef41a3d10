/** The location settings dialog (client/src/components/LocationSettings.tsx): its
    state and the handlers that check, save or clear the alert location. */
module LocationSettings {
  import opened Wrappers
  import opened Types
  import opened Geolocation
  import opened LocationValidation

  const DefaultRadius: real := 100.0
  const LocationFailedMessage: string := "Gagal mendapatkan lokasi Anda"

  /** The callbacks the dialog calls, in order. */
  datatype SettingsEvent = LocationUpdated(location: Option<UserLocation>) | Closed

  /** `currentLocation?.radius || 100`: the saved radius, unless nothing is saved or
      the saved radius is 0. */
  function InitialRadius(saved: Option<UserLocation>): (r: real)
    ensures saved.None? ==> r == DefaultRadius
    ensures saved.Some? && saved.value.radius == 0.0 ==> r == DefaultRadius
    ensures saved.Some? && saved.value.radius != 0.0 ==> r == saved.value.radius
  {
    if saved.Some? && saved.value.radius != 0.0 then saved.value.radius else DefaultRadius
  }

  /** The initial text of a coordinate field: the saved number's text, or "". */
  function InitialText(saved: Option<UserLocation>, coordinate: UserLocation -> real, numberText: real -> string): string
  {
    if saved.Some? then numberText(coordinate(saved.value)) else ""
  }

  class LocationSettingsForm {
    var latitudeText: string
    var longitudeText: string
    var radius: real
    var loading: bool
    var error: Option<string>
    var events: seq<SettingsEvent>

    /** The state the dialog starts with, read from the saved location. */
    constructor(storage: LocationStorage, numberText: real -> string)
      ensures radius == InitialRadius(storage.GetUserLocation())
      ensures latitudeText == InitialText(storage.GetUserLocation(), (l: UserLocation) => l.latitude, numberText)
      ensures longitudeText == InitialText(storage.GetUserLocation(), (l: UserLocation) => l.longitude, numberText)
      ensures !loading && error == None && events == []
    {
      var saved := storage.GetUserLocation();
      latitudeText := InitialText(saved, (l: UserLocation) => l.latitude, numberText);
      longitudeText := InitialText(saved, (l: UserLocation) => l.longitude, numberText);
      radius := InitialRadius(saved);
      loading := false;
      error := None;
      events := [];
    }

    /** `handleUseMyLocation`: fills the two fields from the device position, or
        shows the error. Nothing is saved. */
    method HandleUseMyLocation(position: Result<Position, Thrown>, numberText: real -> string)
      modifies this
      ensures !loading && radius == old(radius) && events == old(events)
      ensures position.Success? ==>
        latitudeText == numberText(position.value.latitude) && longitudeText == numberText(position.value.longitude) && error == None
      ensures position.Failure? ==>
        latitudeText == old(latitudeText) && longitudeText == old(longitudeText) && error == Some(ErrorText(position.error, LocationFailedMessage))
    {
      loading := true;
      error := None;
      match position {
        case Success(p) =>
          latitudeText := numberText(p.latitude);
          longitudeText := numberText(p.longitude);
        case Failure(err) =>
          error := Some(ErrorText(err, LocationFailedMessage));
      }
      loading := false;
    }

    /** `handleClearLocation`: removes the saved location, reports `null`, closes. */
    method HandleClearLocation(storage: LocationStorage)
      modifies this, storage
      ensures storage.GetUserLocation() == None
      ensures events == old(events) + [LocationUpdated(None), Closed]
      ensures latitudeText == old(latitudeText) && longitudeText == old(longitudeText)
      ensures radius == old(radius) && error == old(error) && loading == old(loading)
    {
      storage.ClearUserLocation();
      events := events + [LocationUpdated(None), Closed];
    }

    /** `handleSave`: a location that passes the check is saved with the form's
        radius, reported and the dialog closed; otherwise only the error is set. */
    method HandleSave(storage: LocationStorage, parseFloat: string -> Option<real>)
      modifies this, storage
      ensures var v := ValidateCoordinates(parseFloat(old(latitudeText)), parseFloat(old(longitudeText)));
        && (v.Invalid? ==> error == Some(v.message) && storage.slot == old(storage.slot) && events == old(events))
        && (v.Valid? ==>
              var location := UserLocation(v.latitude, v.longitude, radius);
              && storage.GetUserLocation() == Some(location)
              && events == old(events) + [LocationUpdated(Some(location)), Closed]
              && error == old(error))
      ensures latitudeText == old(latitudeText) && longitudeText == old(longitudeText)
      ensures radius == old(radius) && loading == old(loading)
    {
      var lat := parseFloat(latitudeText);
      var lng := parseFloat(longitudeText);
      var v := ValidateCoordinates(lat, lng);
      if v.Invalid? {
        error := Some(v.message);
        return;
      }
      var location := UserLocation(v.latitude, v.longitude, radius);
      storage.SaveUserLocation(location);
      events := events + [LocationUpdated(Some(location)), Closed];
    }
  }
}
