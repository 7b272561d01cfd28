/** Choosing the city whose cinemas are shown. */
module Location {
  import opened Wrappers

  /** The city that simulated GPS detection reports. */
  const DetectedCity: string := "Bandung"
  const CityRequired: string := "City is required if GPS is not enabled"

  /**
    `get_cinema_location`: the detected city when auto-detection is on, else the
    city given; a missing or empty city yields the CityRequired message.
   */
  function GetCinemaLocation(autoDetect: bool, city: Option<string>): (r: string)
    ensures autoDetect ==> r == DetectedCity
    ensures !autoDetect && city.Some? && city.value != "" ==> r == city.value
    ensures !autoDetect && (city.None? || city.value == "") ==> r == CityRequired
    ensures r != ""
  {
    if autoDetect then DetectedCity
    else if city.None? || city.value == "" then CityRequired
    else city.value
  }
}
