/** The coordinate check shared by the two location forms
    (client/src/components/LocationSettings.tsx and LocationSetup.tsx). */
module LocationValidation {
  import opened Wrappers

  const InvalidCoordinatesMessage: string := "Koordinat tidak valid"
  const OutOfRangeMessage: string := "Koordinat di luar jangkauan"

  /** The outcome of the check: the parsed coordinates, or the error text shown. */
  datatype Validation = Valid(latitude: real, longitude: real) | Invalid(message: string)

  /** Latitude in [-90, 90] and longitude in [-180, 180], bounds included. */
  predicate InRange(latitude: real, longitude: real)
  {
    -90.0 <= latitude <= 90.0 && -180.0 <= longitude <= 180.0
  }

  /** The two guards of the submit handlers, in their order: a `NaN` coordinate
      (`None`) is reported first, then a coordinate out of range. */
  function ValidateCoordinates(latitude: Option<real>, longitude: Option<real>): (v: Validation)
    ensures latitude.None? || longitude.None? ==> v == Invalid(InvalidCoordinatesMessage)
    ensures v.Valid? <==> latitude.Some? && longitude.Some? && InRange(latitude.value, longitude.value)
    ensures v.Valid? ==> v.latitude == latitude.value && v.longitude == longitude.value
    ensures latitude.Some? && longitude.Some? && !InRange(latitude.value, longitude.value) ==> v == Invalid(OutOfRangeMessage)
  {
    if latitude.None? || longitude.None? then Invalid(InvalidCoordinatesMessage)
    else
      var lat, lng := latitude.value, longitude.value;
      if lat < -90.0 || lat > 90.0 || lng < -180.0 || lng > 180.0 then Invalid(OutOfRangeMessage)
      else Valid(lat, lng)
  }
}
