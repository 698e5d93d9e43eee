/** The decoded GTFS Realtime `FeedMessage`, as the plain object that
    `FeedMessage.toObject` hands to the server: every message field that the
    wire data did not carry is absent from the object. Only the fields the
    server reads are kept. */
module GtfsFeed {
  import opened Common

  /** `VehicleDescriptor`: the vehicle's identity. */
  datatype VehicleDescriptor = VehicleDescriptor(id: Option<string>)

  /** `TripDescriptor`: the trip the vehicle serves. */
  datatype TripDescriptor = TripDescriptor(routeId: Option<string>)

  /** `Position`: latitude and longitude are required fields of the message. */
  datatype Position = Position(latitude: Number, longitude: Number)

  /** `VehiclePosition`: the `vehicle` block of an entity. */
  datatype VehiclePosition = VehiclePosition(
    vehicle: Option<VehicleDescriptor>,
    trip: Option<TripDescriptor>,
    position: Option<Position>)

  /** `FeedEntity`: one entity of the feed; only its `vehicle` block is read. */
  datatype FeedEntity = FeedEntity(vehicle: Option<VehiclePosition>)

  /** `FeedMessage`: the `entity` array is absent from the object when the
      feed carries no entity, since `toObject` is called without the
      `arrays` or `defaults` option. So `toObject` never yields a present but
      empty array: a feed without entities is `FeedMessage(None)`, and
      `FeedMessage(Some([]))` stands for no real feed. */
  datatype FeedMessage = FeedMessage(entity: Option<seq<FeedEntity>>)

  /** The filter test of the pipeline: a `vehicle` block that has a `position`. */
  predicate HasPosition(e: FeedEntity)
  {
    e.vehicle.Some? && e.vehicle.value.position.Some?
  }

  /** The inner vehicle descriptor, read without optional chaining. */
  predicate HasDescriptor(e: FeedEntity)
  {
    e.vehicle.Some? && e.vehicle.value.vehicle.Some?
  }
}
