/** The first-run location prompt (client/src/components/LocationSetup.tsx): the
    device-position and manual-entry handlers. */
module LocationSetup {
  import opened Wrappers
  import opened Types
  import opened Geolocation
  import opened LocationValidation

  const InitialRadius: real := 100.0
  const LocationFailedMessage: string := "Gagal mendapatkan lokasi Anda"

  class LocationSetupForm {
    var loading: bool
    var error: Option<string>
    var latitudeText: string
    var longitudeText: string
    var radius: real
    /** The locations passed to `onComplete`, in order. */
    var completed: seq<UserLocation>

    constructor()
      ensures !loading && error == None && latitudeText == "" && longitudeText == ""
      ensures radius == InitialRadius && completed == []
    {
      loading := false;
      error := None;
      latitudeText := "";
      longitudeText := "";
      radius := InitialRadius;
      completed := [];
    }

    /** `handleUseMyLocation`: the device position is saved with the selected radius
        and no range check; a failure only sets the error. */
    method HandleUseMyLocation(storage: LocationStorage, position: Result<Position, Thrown>)
      modifies this, storage
      ensures !loading && radius == old(radius)
      ensures latitudeText == old(latitudeText) && longitudeText == old(longitudeText)
      ensures position.Success? ==>
        var location := UserLocation(position.value.latitude, position.value.longitude, radius);
        && storage.GetUserLocation() == Some(location)
        && completed == old(completed) + [location]
        && error == None
      ensures position.Failure? ==>
        && storage.slot == old(storage.slot)
        && completed == old(completed)
        && error == Some(ErrorText(position.error, LocationFailedMessage))
    {
      loading := true;
      error := None;
      match position {
        case Success(p) =>
          var location := UserLocation(p.latitude, p.longitude, radius);
          storage.SaveUserLocation(location);
          completed := completed + [location];
        case Failure(err) =>
          error := Some(ErrorText(err, LocationFailedMessage));
      }
      loading := false;
    }

    /** `handleManualSubmit`: typed coordinates that pass the check are saved with
        the selected radius and passed on; otherwise only the error is set. */
    method HandleManualSubmit(storage: LocationStorage, parseFloat: string -> Option<real>)
      modifies this, storage
      ensures var v := ValidateCoordinates(parseFloat(old(latitudeText)), parseFloat(old(longitudeText)));
        && (v.Invalid? ==> error == Some(v.message) && storage.slot == old(storage.slot) && completed == old(completed))
        && (v.Valid? ==>
              var location := UserLocation(v.latitude, v.longitude, radius);
              && storage.GetUserLocation() == Some(location)
              && completed == old(completed) + [location]
              && error == old(error))
      ensures radius == old(radius) && loading == old(loading)
      ensures latitudeText == old(latitudeText) && longitudeText == old(longitudeText)
    {
      var lat := parseFloat(latitudeText);
      var lng := parseFloat(longitudeText);
      var v := ValidateCoordinates(lat, lng);
      if v.Invalid? {
        error := Some(v.message);
        return;
      }
      var location := UserLocation(v.latitude, v.longitude, radius);
      storage.SaveUserLocation(location);
      completed := completed + [location];
    }
  }
}
