/** The controller's return codes. */
module Status {
  datatype Code = Ok | InvalidParam | NotFound | Busy | NotInitialized | Protocol | Permission | Full
}
