/**
 * The decoded telemetry the RID Guard core consumes from the detection
 * sources (the receiver app's AircraftObject, Identification, Connection and
 * LocationData) and the receiver's own position. Java's nullable references
 * are Option; float and double values are reals.
 */
module Telemetry {
  import opened Text

  /** One identification message; `uasId` is getUasIdAsString(), which may be null. */
  datatype Identification = Identification(uasId: Option<string>)

  /** The link the aircraft was heard on; `macAddress` is a nullable String field. */
  datatype Connection = Connection(macAddress: Option<string>, lastSeen: int)

  /** Location message fields. The value -1000 of an altitude means "unknown". */
  datatype LocationData = LocationData(
    distance: real,
    altitudeGeodetic: real,
    altitudePressure: real,
    speedHorizontal: real,
    direction: real,
    latitude: real,
    longitude: real)

  /** One tracked aircraft; `macAddress` is the raw hardware address as a long. */
  datatype Aircraft = Aircraft(
    macAddress: int,
    identification1: Option<Identification>,
    identification2: Option<Identification>,
    connection: Option<Connection>,
    location: Option<LocationData>)

  /** The receiver's position as delivered by the location feed. */
  datatype ReceiverLocation = ReceiverLocation(latitude: real, longitude: real, altitude: real)
}
