/** The saved alert location (client/src/services/geolocation.ts): one
    `localStorage` slot holding the location as JSON. */
module Geolocation {
  import opened Wrappers
  import opened Types

  /** The text under the location key: a location written by `saveUserLocation`, or
      text that `JSON.parse` rejects. */
  datatype StoredLocation = Saved(location: UserLocation) | Unparseable

  /** The coordinates of a `GeolocationPosition` from `requestGeolocation`. */
  datatype Position = Position(latitude: real, longitude: real)

  class LocationStorage {
    /** `None` when the key is absent (or holds the empty string). */
    var slot: Option<StoredLocation>

    constructor(slot: Option<StoredLocation>)
      ensures this.slot == slot
    {
      this.slot := slot;
    }

    /** `getUserLocation`: the saved location, or `null` when nothing is stored or the
        text does not parse. */
    function GetUserLocation(): (r: Option<UserLocation>)
      reads this
      ensures r.Some? <==> slot.Some? && slot.value.Saved?
      ensures r.Some? ==> r.value == slot.value.location
    {
      match slot
      case Some(Saved(location)) => Some(location)
      case _ => None
    }

    /** `saveUserLocation`: the single key is overwritten, so the location just saved
        is the one read back, whatever was stored before. */
    method SaveUserLocation(location: UserLocation)
      modifies this
      ensures slot == Some(Saved(location))
      ensures GetUserLocation() == Some(location)
    {
      slot := Some(Saved(location));
    }

    /** `clearUserLocation`: afterwards nothing is read back. */
    method ClearUserLocation()
      modifies this
      ensures slot == None
      ensures GetUserLocation() == None
    {
      slot := None;
    }
  }
}
