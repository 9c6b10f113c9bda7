/** The shared ride-order types. */
module Models {
  import opened Nullable

  /** An ISO-8601 timestamp, opaque to the model: every operation takes the current one as `now`. */
  type Timestamp = string

  datatype RideStatus = Pending | Accepted | InProgress | Completed | Canceled

  /** One requested ride; nullable columns are `Option`s. */
  datatype RideOrder = RideOrder(
    id: string,
    passengerId: string,
    driverId: Option<string>,
    pickupAddress: string,
    dropoffAddress: string,
    estimatedDistanceKm: Option<real>,
    estimatedPrice: real,
    finalPrice: Option<real>,
    status: RideStatus,
    scheduledAt: Option<Timestamp>,
    startedAt: Option<Timestamp>,
    completedAt: Option<Timestamp>,
    createdAt: Timestamp,
    updatedAt: Timestamp
  )

  /**
   * A timestamp column counts as set when it is truthy: present and not the
   * empty string, as the store's `!order.started_at` tests decide.
   */
  predicate IsSet(t: Option<Timestamp>) {
    t.Some? && t.value != ""
  }

  /** The columns that no status update touches. */
  predicate KeepsIdentity(before: RideOrder, after: RideOrder) {
    && after.id == before.id
    && after.passengerId == before.passengerId
    && after.pickupAddress == before.pickupAddress
    && after.dropoffAddress == before.dropoffAddress
    && after.estimatedDistanceKm == before.estimatedDistanceKm
    && after.estimatedPrice == before.estimatedPrice
    && after.scheduledAt == before.scheduledAt
    && after.createdAt == before.createdAt
  }
}
